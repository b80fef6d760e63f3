/** Laws of the dynamic whitelist: /24 arithmetic, cache coherence, idempotence and provenance over whole runs. */
module WhitelistLaws {
  import opened Wrappers
  import opened Net
  import opened DynamicWhitelist

  // ---------------------------------------------------------------- /24 arithmetic

  lemma MaskedValue(a: bv32)
    ensures a & Mask(24) == a & 0xffff_ff00
  {
    assert Mask(24) == 0xffff_ff00;
  }

  /** The masked network starts at or below the address and reaches at most 255 above it. */
  lemma NetworkBounds(a: bv32)
    ensures var net := a & Mask(24); net <= a && a - net <= 255 && net % 256 == 0
  {
    MaskedValue(a);
    assert a & 0xffff_ff00 <= a && a - (a & 0xffff_ff00) <= 255 && (a & 0xffff_ff00) % 256 == 0;
  }

  /** The top 24 bits of an address. */
  function Top(a: bv32): bv32 {
    Prefix4(a, 24)
  }

  lemma TopIsShift(a: bv32)
    ensures Top(a) == a >> 8
  {
  }

  lemma MaskShift(a: bv32)
    ensures (a & 0xffff_ff00) >> 8 == a >> 8
  {
  }

  lemma MaskKeepsTop(a: bv32, m: bv32)
    requires m == a & Mask(24)
    ensures Top(m) == Top(a)
  {
    MaskedValue(a);
    MaskShift(a);
    TopIsShift(m);
    TopIsShift(a);
  }

  lemma FormatIs(a: bv32, m: bv32)
    requires m == a & Mask(24)
    ensures FormatIpv4Network(a, 24) == Net(Cidr4(m, 24))
  {
  }

  lemma NetCoversTop(m: bv32, ip: Ip)
    ensures Covers(Net(Cidr4(m, 24)), ip) <==> ip.Ip4? && Top(m) == Top(ip.a)
  {
  }

  /** The entry an address expands to covers exactly the IPv4 addresses with the same top 24 bits. */
  lemma NetworkCoversIff(a: bv32, ip: Ip)
    ensures Covers(FormatIpv4Network(a, 24), ip) <==> ip.Ip4? && Top(a) == Top(ip.a)
  {
    var m := a & Mask(24);
    MaskKeepsTop(a, m);
    FormatIs(a, m);
    NetCoversTop(m, ip);
  }

  /** The network entry written down from the top bits alone. */
  function FromTop(t: bv32): Entry {
    Net(Cidr4(t << 8, 24))
  }

  lemma FormatFromTop(a: bv32, t: bv32)
    requires t == Top(a)
    ensures FormatIpv4Network(a, 24) == FromTop(t)
  {
    MaskedValue(a);
    TopIsShift(a);
    assert a & 0xffff_ff00 == (a >> 8) << 8;
  }

  lemma FormatKeepsTop(a: bv32, e: Entry)
    requires e == FormatIpv4Network(a, 24)
    ensures e.Net? && e.cidr.Cidr4? && Top(e.cidr.base4) == Top(a)
  {
    MaskKeepsTop(a, a & Mask(24));
  }

  /** Two addresses expand to the same entry exactly when they agree after dropping the last eight bits. */
  lemma SameNetworkIff(a: bv32, b: bv32)
    ensures FormatIpv4Network(a, 24) == FormatIpv4Network(b, 24) <==> Top(a) == Top(b)
  {
    if Top(a) == Top(b) {
      FormatFromTop(a, Top(a));
      FormatFromTop(b, Top(a));
    }
    if FormatIpv4Network(a, 24) == FormatIpv4Network(b, 24) {
      FormatKeepsTop(a, FormatIpv4Network(a, 24));
      FormatKeepsTop(b, FormatIpv4Network(a, 24));
    }
  }

  ghost predicate CoveredBySet(entries: set<Entry>, ip: Ip) {
    exists e :: e in entries && Covers(e, ip)
  }

  /** Expansion widens every IPv4 address to its /24 and nothing else: an address is let in exactly when it
      was named, or shares its top 24 bits with a named IPv4 address. */
  lemma ExpansionCoversIff(raw: set<Entry>, ip: Ip)
    ensures CoveredBySet(Expand(raw, 24), ip)
            <==> CoveredBySet(raw, ip)
                 || (ip.Ip4? && exists a :: Host(Ip4(a)) in raw && Top(a) == Top(ip.a))
  {
    forall a { NetworkCoversIff(a, ip); }
    if CoveredBySet(raw, ip) {
      var e :| e in raw && Covers(e, ip);
      assert Covers(ExpandOne(e, 24), ip);
    }
    if ip.Ip4? && exists a :: Host(Ip4(a)) in raw && Top(a) == Top(ip.a) {
      var a :| Host(Ip4(a)) in raw && Top(a) == Top(ip.a);
      assert ExpandOne(Host(Ip4(a)), 24) in Expand(raw, 24);
    }
  }

  /** IPv6 addresses, prefixes, and everything outside mode 24 pass through; expanding again changes nothing. */
  lemma ExpansionIsIdempotent(raw: set<Entry>, mode: nat)
    ensures Expand(Expand(raw, mode), mode) == Expand(raw, mode)
    ensures forall e :: e in raw && (mode != 24 || EntryFamily(e).Inet6? || e.Net?) ==> e in Expand(raw, mode)
  {
    forall e | e in Expand(raw, mode) ensures ExpandOne(e, mode) == e {
      var o :| o in raw && e == ExpandOne(o, mode);
    }
    forall e | e in Expand(raw, mode) ensures e in Expand(Expand(raw, mode), mode) {
      assert ExpandOne(e, mode) == e;
    }
    forall e | e in raw && (mode != 24 || EntryFamily(e).Inet6? || e.Net?) ensures e in Expand(raw, mode) {
      assert ExpandOne(e, mode) == e;
    }
  }

  // ---------------------------------------------------------------- coherence of the stored data

  /** The stored sources are the expansion of the stored addresses under the stored mode; a stale entry has an
      error and lives off a nonempty last-good set; addresses belong to the families the entry is marked with. */
  ghost predicate Coherent(d: DomainState) {
    && d.effective == Expand(d.current, d.expand)
    && d.raw == d.current
    && (d.stale ==> d.error.Some? && d.current == d.lastGood && d.current != {})
    && (!d.stale && d.error.Some? ==> d.current == {})
    && d.current <= d.lastGood
    && (forall e :: e in d.lastGood ==> e.Host?)
    && (forall e :: e in d.current ==> if e.ip.Ip4? then d.ipv4 else d.ipv6)
  }

  lemma RefreshedIsCoherent(config: Config, dc: DomainConfig, previous: Option<DomainState>,
                            answer: Result<seq<Ip>, string>, now: int)
    requires previous.Some? ==> Coherent(previous.value)
    ensures Coherent(Refreshed(config, dc, previous, answer, now))
  {
    assert Expand({}, config.expand) == {};
  }

  ghost predicate AllCoherent(state: State) {
    forall d :: d in state ==> Coherent(d)
  }

  lemma {:induction false} RefreshedUpToCoherent(config: Config, previous: State, answers: Answers, now: int, n: nat)
    requires n <= |config.domains| && AllCoherent(previous)
    ensures AllCoherent(RefreshedUpTo(config, previous, answers, now, n))
  {
    if n > 0 {
      RefreshedUpToCoherent(config, previous, answers, now, n - 1);
      var dc := config.domains[n - 1];
      RefreshedIsCoherent(config, dc, Find(previous, dc.name, dc.domain), answers(n - 1), now);
    }
  }

  /** Reading a coherent entry gives a fresh expansion for whatever mode is asked for. */
  lemma ViewIsFresh(d: DomainState, mode: nat)
    requires Coherent(d)
    ensures EffectiveSourcesView(d, mode) == Expand(d.current, mode)
  {
  }

  // ---------------------------------------------------------------- runs

  /** One refresh as the service performs it: the state is loaded, refreshed and saved. A failed load starts
      from nothing, a failed save leaves the old file. */
  datatype Step = Step(config: Config, answers: Answers, now: int, loadOk: bool, saveOk: bool)

  function Loaded(file: State, s: Step): State {
    if s.loadOk then file else []
  }

  function FileAfterStep(file: State, s: Step): State {
    if s.config.enabled && s.saveOk then RefreshedState(s.config, Loaded(file, s), s.answers, s.now) else file
  }

  /** The state file after the first n refreshes, starting without one. */
  function FileAfter(run: seq<Step>, n: nat): State
    requires n <= |run|
  {
    if n == 0 then [] else FileAfterStep(FileAfter(run, n - 1), run[n - 1])
  }

  /** Whatever the configurations along the way, every reachable state is coherent. */
  lemma {:induction false} ReachableIsCoherent(run: seq<Step>, n: nat)
    requires n <= |run|
    ensures AllCoherent(FileAfter(run, n))
  {
    if n > 0 {
      ReachableIsCoherent(run, n - 1);
      var s := run[n - 1];
      RefreshedUpToCoherent(s.config, Loaded(FileAfter(run, n - 1), s), s.answers, s.now, |s.config.domains|);
    }
  }

  /** Hence the sources in effect never depend on the mode they were last computed for. */
  lemma ReachableViewsAreFresh(run: seq<Step>, n: nat, d: DomainState, mode: nat)
    requires n <= |run| && d in FileAfter(run, n)
    ensures EffectiveSourcesView(d, mode) == Expand(d.current, mode)
  {
    ReachableIsCoherent(run, n);
    ViewIsFresh(d, mode);
  }

  // ---------------------------------------------------------------- repeating a refresh

  /** No two configured domains share both name and domain. */
  predicate DistinctPairs(config: Config) {
    forall i, j :: 0 <= i < j < |config.domains| ==>
      config.domains[i].name != config.domains[j].name || config.domains[i].domain != config.domains[j].domain
  }

  lemma {:induction false} RefreshedAt(config: Config, previous: State, answers: Answers, now: int, n: nat, i: nat)
    requires i < n <= |config.domains|
    ensures var dc := config.domains[i];
            RefreshedUpTo(config, previous, answers, now, n)[i]
            == Refreshed(config, dc, Find(previous, dc.name, dc.domain), answers(i), now)
  {
    if i < n - 1 {
      RefreshedAt(config, previous, answers, now, n - 1, i);
    }
  }

  /** Position of the first configured domain with this name and domain, if there is one. */
  function PositionOf(domains: seq<DomainConfig>, name: string, domain: string): (r: Option<nat>)
    ensures r.Some? ==> r.value < |domains| && domains[r.value].name == name && domains[r.value].domain == domain
    ensures forall i :: 0 <= i < (if r.Some? then r.value else |domains|) ==>
              domains[i].name != name || domains[i].domain != domain
  {
    if domains == [] then None
    else if domains[0].name == name && domains[0].domain == domain then Some(0)
    else
      var r := PositionOf(domains[1..], name, domain);
      if r.Some? then Some(r.value + 1) else None
  }

  /** The first position that shares name and domain with position i. */
  function FirstLike(config: Config, i: nat): (j: nat)
    requires i < |config.domains|
    ensures j <= i
  {
    PositionOf(config.domains, config.domains[i].name, config.domains[i].domain).value
  }

  lemma {:induction false} FindFirst(state: State, j: nat, name: string, domain: string)
    requires j < |state| && state[j].name == name && state[j].domain == domain
    requires forall k :: 0 <= k < j ==> state[k].name != name || state[k].domain != domain
    ensures Find(state, name, domain) == Some(state[j])
  {
    if j > 0 {
      forall k | 0 <= k < j - 1 ensures state[1..][k].name != name || state[1..][k].domain != domain {
        assert state[1..][k] == state[k + 1];
      }
      FindFirst(state[1..], j - 1, name, domain);
    }
  }

  /** The entry a refresh computes for position i of the configuration. */
  function EntryOf(config: Config, previous: State, answers: Answers, now: int, i: nat): DomainState
    requires i < |config.domains|
  {
    var dc := config.domains[i];
    Refreshed(config, dc, Find(previous, dc.name, dc.domain), answers(i), now)
  }

  /** After a refresh a configured name and domain is found at its first position. */
  lemma FindRefreshed(config: Config, previous: State, answers: Answers, now: int, i: nat)
    requires config.enabled && i < |config.domains|
    ensures var dc := config.domains[i];
            Find(RefreshedState(config, previous, answers, now), dc.name, dc.domain)
            == Some(EntryOf(config, previous, answers, now, FirstLike(config, i)))
  {
    var state, j := RefreshedState(config, previous, answers, now), FirstLike(config, i);
    forall k | 0 <= k < |state|
      ensures state[k].name == config.domains[k].name && state[k].domain == config.domains[k].domain
    {
      RefreshedAt(config, previous, answers, now, |config.domains|, k);
    }
    RefreshedAt(config, previous, answers, now, |config.domains|, j);
    FindFirst(state, j, config.domains[i].name, config.domains[i].domain);
  }

  ghost predicate Quiet(events: seq<Event>) {
    forall e :: e in events ==> !e.Change? && !e.StalePruned?
  }

  /** What position i resolves to is what the first position with its name and domain holds. */
  predicate Settled(config: Config, previous: State, answers: Answers, now: int, i: nat)
    requires i < |config.domains|
  {
    var result := Outcome(config, answers(i));
    config.domains[i].enabled && result.Success? ==>
      Expand(result.value, config.expand) == EntryOf(config, previous, answers, now, FirstLike(config, i)).effective
  }

  /** The events of position i when the refresh is repeated. */
  function RepeatedEvents(config: Config, once: State, answers: Answers, i: nat): seq<Event>
    requires i < |config.domains|
  {
    var dc := config.domains[i];
    PruneEvents(dc, once) + ResolveEvents(config, dc, Find(once, dc.name, dc.domain), answers(i))
  }

  lemma ResolveQuietIff(config: Config, dc: DomainConfig, previous: DomainState, answer: Result<seq<Ip>, string>)
    ensures Quiet(ResolveEvents(config, dc, Some(previous), answer)) <==>
            (dc.enabled && Outcome(config, answer).Success? ==>
               Expand(Outcome(config, answer).value, config.expand) == previous.effective)
  {
    var events := ResolveEvents(config, dc, Some(previous), answer);
    if dc.enabled && Outcome(config, answer).Success? &&
       Expand(Outcome(config, answer).value, config.expand) != previous.effective {
      assert events[1].Change? && events[1] in events;
    }
  }

  lemma RepeatedEventsQuietIff(config: Config, previous: State, once: State, answers: Answers, now: int, i: nat)
    requires config.enabled && i < |config.domains| && once == RefreshedState(config, previous, answers, now)
    ensures Quiet(RepeatedEvents(config, once, answers, i)) <==> Settled(config, previous, answers, now, i)
  {
    var dc := config.domains[i];
    FindRefreshed(config, previous, answers, now, i);
    var first := EntryOf(config, previous, answers, now, FirstLike(config, i));
    ResolveQuietIff(config, dc, first, answers(i));
    assert PruneEvents(dc, once) == [];
    assert [] + ResolveEvents(config, dc, Some(first), answers(i))
           == ResolveEvents(config, dc, Some(first), answers(i));
  }

  /** The events of the first n positions, position by position. */
  function Blocks(config: Config, once: State, answers: Answers, n: nat): (r: seq<seq<Event>>)
    requires n <= |config.domains|
    ensures |r| == n
  {
    if n == 0 then []
    else Blocks(config, once, answers, n - 1) + [RepeatedEvents(config, once, answers, n - 1)]
  }

  function Joined(blocks: seq<seq<Event>>): seq<Event> {
    if blocks == [] then [] else Joined(blocks[..|blocks| - 1]) + blocks[|blocks| - 1]
  }

  lemma JoinedAppend(blocks: seq<seq<Event>>, b: seq<Event>)
    ensures Joined(blocks + [b]) == Joined(blocks) + b
  {
    assert (blocks + [b])[..|blocks|] == blocks;
  }

  lemma {:induction false} EventsAreBlocks(config: Config, once: State, answers: Answers, n: nat)
    requires n <= |config.domains|
    ensures EventsUpTo(config, once, answers, n) == Joined(Blocks(config, once, answers, n))
  {
    if n > 0 {
      EventsAreBlocks(config, once, answers, n - 1);
      JoinedAppend(Blocks(config, once, answers, n - 1), RepeatedEvents(config, once, answers, n - 1));
    }
  }

  lemma {:induction false} BlockAt(config: Config, once: State, answers: Answers, n: nat, i: nat)
    requires i < n <= |config.domains|
    ensures Blocks(config, once, answers, n)[i] == RepeatedEvents(config, once, answers, i)
  {
    var before := Blocks(config, once, answers, n - 1);
    assert Blocks(config, once, answers, n) == before + [RepeatedEvents(config, once, answers, n - 1)];
    if i < n - 1 {
      BlockAt(config, once, answers, n - 1, i);
      assert before[i] == RepeatedEvents(config, once, answers, i);
    }
  }

  lemma {:induction false} JoinedQuietIff(blocks: seq<seq<Event>>)
    ensures Quiet(Joined(blocks)) <==> forall i :: 0 <= i < |blocks| ==> Quiet(blocks[i])
  {
    if blocks != [] {
      var n := |blocks| - 1;
      JoinedQuietIff(blocks[..n]);
      QuietConcat(Joined(blocks[..n]), blocks[n]);
      assert forall i :: 0 <= i < n ==> blocks[..n][i] == blocks[i];
    }
  }

  lemma QuietConcat(a: seq<Event>, b: seq<Event>)
    ensures Quiet(a + b) <==> Quiet(a) && Quiet(b)
  {
    if Quiet(a + b) {
      forall e | e in a || e in b ensures !e.Change? && !e.StalePruned? {
        assert e in a + b;
      }
    }
  }

  /** Repeating a refresh with the same configuration and answers announces no change exactly when every enabled
      position that resolves agrees with what the first position of its name and domain holds: positions that
      repeat a pair are compared with the first one. */
  lemma RepeatedRefreshQuietIff(config: Config, previous: State, answers: Answers, now: int)
    requires config.enabled
    ensures Quiet(RefreshEvents(config, RefreshedState(config, previous, answers, now), answers)) <==>
            forall i :: 0 <= i < |config.domains| ==> Settled(config, previous, answers, now, i)
  {
    var once := RefreshedState(config, previous, answers, now);
    var blocks := Blocks(config, once, answers, |config.domains|);
    EventsAreBlocks(config, once, answers, |config.domains|);
    JoinedQuietIff(blocks);
    forall i | 0 <= i < |config.domains| ensures Quiet(blocks[i]) <==> Settled(config, previous, answers, now, i) {
      BlockAt(config, once, answers, |config.domains|, i);
      RepeatedEventsQuietIff(config, previous, once, answers, now, i);
    }
  }

  lemma RefreshedTwice(config: Config, dc: DomainConfig, previous: Option<DomainState>, answer: Result<seq<Ip>, string>,
                       now: int)
    ensures var d := Refreshed(config, dc, previous, answer, now); Refreshed(config, dc, Some(d), answer, now) == d
  {
    var d := Refreshed(config, dc, previous, answer, now);
    assert d.lastGood == LastGoodFor(config, previous)
           ==> LastGoodFor(config, Some(d)) == LastGoodFor(config, previous);
  }

  lemma {:induction false} RefreshTwiceUpTo(config: Config, previous: State, once: State, answers: Answers, now: int,
                                            n: nat)
    requires config.enabled && DistinctPairs(config) && n <= |config.domains|
    requires once == RefreshedState(config, previous, answers, now)
    ensures RefreshedUpTo(config, once, answers, now, n) == RefreshedUpTo(config, previous, answers, now, n)
  {
    if n > 0 {
      RefreshTwiceUpTo(config, previous, once, answers, now, n - 1);
      var dc := config.domains[n - 1];
      FindRefreshed(config, previous, answers, now, n - 1);
      assert FirstLike(config, n - 1) == n - 1;
      RefreshedTwice(config, dc, Find(previous, dc.name, dc.domain), answers(n - 1), now);
    }
  }

  lemma DistinctPairsSettle(config: Config, previous: State, answers: Answers, now: int, i: nat)
    requires DistinctPairs(config) && i < |config.domains|
    ensures Settled(config, previous, answers, now, i)
  {
    assert FirstLike(config, i) == i;
  }

  /** With distinct pairs, repeating a refresh with the same configuration and answers changes nothing and
      announces no change, whether the resolutions succeed or fail. */
  lemma RefreshIsIdempotent(config: Config, previous: State, answers: Answers, now: int)
    requires DistinctPairs(config)
    ensures var once := RefreshedState(config, previous, answers, now);
            RefreshedState(config, once, answers, now) == once && Quiet(RefreshEvents(config, once, answers))
  {
    if config.enabled {
      var once := RefreshedState(config, previous, answers, now);
      RefreshTwiceUpTo(config, previous, once, answers, now, |config.domains|);
      forall i | 0 <= i < |config.domains| ensures Settled(config, previous, answers, now, i) {
        DistinctPairsSettle(config, previous, answers, now, i);
      }
      RepeatedRefreshQuietIff(config, previous, answers, now);
    }
  }

  // ---------------------------------------------------------------- provenance

  /** What a recorded refresh resolved for a name and domain, if it did so successfully. */
  function ResolvedIn(s: Step, name: string, domain: string): Option<set<Entry>> {
    var i := PositionOf(s.config.domains, name, domain);
    if !s.config.enabled || !s.saveOk || i.None? || !s.config.domains[i.value].enabled then None
    else
      var result := Outcome(s.config, s.answers(i.value));
      if result.Success? then Some(result.value) else None
  }

  /** The result of the most recent successful resolution of that same name and domain. */
  function LatestSuccess(run: seq<Step>, n: nat, name: string, domain: string): set<Entry>
    requires n <= |run|
  {
    if n == 0 then {}
    else
      var now := ResolvedIn(run[n - 1], name, domain);
      if now.Some? then now.value else LatestSuccess(run, n - 1, name, domain)
  }

  lemma RefreshedWithin(config: Config, dc: DomainConfig, previous: Option<DomainState>,
                        answer: Result<seq<Ip>, string>, now: int,
                        known: set<Entry>)
    requires previous.Some? ==> previous.value.lastGood <= known
    ensures var d := Refreshed(config, dc, previous, answer, now);
            && d.name == dc.name && d.domain == dc.domain
            && d.lastGood <= if dc.enabled && Outcome(config, answer).Success? then Outcome(config, answer).value
                             else known
  {
  }

  /** Over every run with distinct pairs: each address an entry holds, current or last good, comes from the most
      recent successful resolution of that same name and domain; an entry whose domain was changed starts from
      nothing. */
  lemma {:induction false} AddressesComeFromLatestSuccess(run: seq<Step>, n: nat, d: DomainState)
    requires n <= |run| && (forall s :: s in run ==> DistinctPairs(s.config)) && d in FileAfter(run, n)
    ensures d.current <= d.lastGood <= LatestSuccess(run, n, d.name, d.domain)
  {
    ReachableIsCoherent(run, n);
    assert Coherent(d);
    var s := run[n - 1];
    assert s in run;
    var file := FileAfter(run, n - 1);
    if s.config.enabled && s.saveOk {
      var i :| 0 <= i < |s.config.domains| && FileAfter(run, n)[i] == d;
      var dc := s.config.domains[i];
      var previous := Find(Loaded(file, s), dc.name, dc.domain);
      RefreshedAt(s.config, Loaded(file, s), s.answers, s.now, |s.config.domains|, i);
      var known := LatestSuccess(run, n - 1, dc.name, dc.domain);
      if previous.Some? {
        AddressesComeFromLatestSuccess(run, n - 1, previous.value);
      }
      RefreshedWithin(s.config, dc, previous, s.answers(i), s.now, known);
      var at := PositionOf(s.config.domains, dc.name, dc.domain);
      assert at == Some(i);
    } else {
      AddressesComeFromLatestSuccess(run, n - 1, d);
    }
  }

  /** A name and domain never resolved successfully hold no address, whatever the name pointed to before. */
  lemma NothingInherited(run: seq<Step>, n: nat, d: DomainState)
    requires n <= |run| && (forall s :: s in run ==> DistinctPairs(s.config)) && d in FileAfter(run, n)
    requires forall i :: 0 <= i < n ==> ResolvedIn(run[i], d.name, d.domain).None?
    ensures d.lastGood == {} && d.current == {} && d.effective == {}
  {
    AddressesComeFromLatestSuccess(run, n, d);
    NeverResolved(run, n, d.name, d.domain);
    ReachableIsCoherent(run, n);
    assert Coherent(d);
    assert Expand({}, d.expand) == {};
  }

  lemma {:induction false} NeverResolved(run: seq<Step>, n: nat, name: string, domain: string)
    requires n <= |run| && forall i :: 0 <= i < n ==> ResolvedIn(run[i], name, domain).None?
    ensures LatestSuccess(run, n, name, domain) == {}
  {
    if n > 0 {
      NeverResolved(run, n - 1, name, domain);
    }
  }

  /** Refresh m is the latest one that was enabled and saved. */
  predicate LatestSaved(run: seq<Step>, n: nat, m: nat) {
    m < n <= |run| && run[m].config.enabled && run[m].saveOk
    && forall k :: m < k < n ==> !(run[k].config.enabled && run[k].saveOk)
  }

  /** In every reachable state, current addresses are of families enabled in the latest refresh that was enabled
      and saved. */
  lemma {:induction false} CurrentFamiliesEnabled(run: seq<Step>, n: nat, d: DomainState, e: Entry)
    requires n <= |run| && d in FileAfter(run, n) && e in d.current
    ensures e.Host? && exists m: nat :: LatestSaved(run, n, m) && FamilyEnabled(run[m].config, FamilyOf(e.ip))
  {
    var s := run[n - 1];
    if s.config.enabled && s.saveOk {
      var file := Loaded(FileAfter(run, n - 1), s);
      var i :| 0 <= i < |s.config.domains| && FileAfter(run, n)[i] == d;
      RefreshedAt(s.config, file, s.answers, s.now, |s.config.domains|, i);
      ReachableIsCoherent(run, n);
      assert Coherent(d);
      assert LatestSaved(run, n, n - 1);
    } else {
      CurrentFamiliesEnabled(run, n - 1, d, e);
      var m: nat :| LatestSaved(run, n - 1, m) && FamilyEnabled(run[m].config, FamilyOf(e.ip));
      assert LatestSaved(run, n, m);
    }
  }

  // ---------------------------------------------------------------- why the pairs must be distinct

  /** A pair listed twice with different answers: the second position never agrees with the first, so every repeated
      refresh announces a change, although the state stays the same. */
  lemma RepeatedPairKeepsChanging(config: Config, dc: DomainConfig, previous: State, a: bv32, b: bv32, now: int)
    requires config.enabled && config.resolve4 && config.domains == [dc, dc] && dc.enabled
    requires Expand({Host(Ip4(a))}, config.expand) != Expand({Host(Ip4(b))}, config.expand)
    ensures var answers: Answers := (i: nat) => Success([Ip4(if i == 0 then a else b)]);
            var once := RefreshedState(config, previous, answers, now);
            RefreshedState(config, once, answers, now) == once && !Quiet(RefreshEvents(config, once, answers))
  {
    var answers: Answers := (i: nat) => Success([Ip4(if i == 0 then a else b)]);
    var once := RefreshedState(config, previous, answers, now);
    OneAddress(config, a);
    OneAddress(config, b);
    assert FirstLike(config, 1) == 0;
    assert !Settled(config, previous, answers, now, 1);
    RepeatedRefreshQuietIff(config, previous, answers, now);
    RefreshedAt(config, previous, answers, now, 2, 0);
    RefreshedAt(config, previous, answers, now, 2, 1);
    RefreshedAt(config, once, answers, now, 2, 0);
    RefreshedAt(config, once, answers, now, 2, 1);
    assert RefreshedState(config, once, answers, now) == once;
  }

  lemma OneAddress(config: Config, a: bv32)
    requires config.resolve4
    ensures Outcome(config, Success([Ip4(a)])) == Success({Host(Ip4(a))})
  {
    assert Ip4(a) in [Ip4(a)];
    assert Usable(config, [Ip4(a)]) == {Host(Ip4(a))};
  }
}
