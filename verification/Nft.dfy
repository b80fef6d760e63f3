/** The part of nftables the generated scripts use: commands, the ruleset they act on, running a script as
    one transaction, and first-match evaluation of a chain on a packet. */
module Nft {
  import opened Wrappers
  import opened Net
  import opened Cells

  datatype TableName = SelfNat | SelfFilter | OtherTable(name: string)
  datatype ChainName = Prerouting | Postrouting | InputHook | ForwardHook | GeoIpPrerouting | OtherChain(name: string)
  datatype SetName = Cn4 | OtherSet(name: string)

  datatype TableKey = TableKey(family: Family, table: TableName)

  datatype ChainKind = NatKind | FilterKind
  datatype Hook = HookPrerouting | HookPostrouting | HookInput | HookForward
  datatype ChainSpec = ChainSpec(kind: ChainKind, hook: Hook, priority: int)

  /** Priority "filter" of the ip and ip6 families. */
  const FILTER_PRIORITY := 0

  // ---------------------------------------------------------------- packets and rules

  datatype Transport = TcpTransport | UdpTransport | OtherTransport
  datatype CtState = NewConnection | Established | Related | Untracked

  datatype Packet = Packet(src: Ip, dst: Ip, transport: Transport, sport: Port, dport: Port, ct: CtState, syn: bool)

  datatype Match =
    | CtNew
    | CtReply
    | SaddrIn(entries: seq<Entry>)
    | SaddrInSet(name: SetName)
    | DaddrIn(entries: seq<Entry>)
    | L4(protocol: Protocol)
    | SportIn(lo: Port, hi: Port)
    | DportIn(lo: Port, hi: Port)
    | TcpSyn

  datatype Action =
    | Accept
    | DropPacket
    | Dnat(ip: Ip, lo: Port, hi: Port)
    | RedirectTo(port: Port)
    | SnatTo(source: IpText)
    | MasqueradeSource
    | CountOnly
    | ClampMss(size: nat)

  /** owner: the number of the configured rule a generated rule belongs to, as its comment records. */
  datatype NftRule = NftRule(matches: seq<Match>, action: Action, owner: Option<nat>)

  predicate TransportMatches(p: Protocol, t: Transport) {
    match p
    case Tcp => t == TcpTransport
    case Udp => t == UdpTransport
    case AnyProtocol => t == TcpTransport || t == UdpTransport
  }

  predicate Holds(m: Match, p: Packet, sets: map<SetName, seq<Entry>>) {
    match m
    case CtNew => p.ct == NewConnection
    case CtReply => p.ct == Established || p.ct == Related
    case SaddrIn(entries) => CoversAny(entries, p.src)
    case SaddrInSet(name) => name in sets && CoversAny(sets[name], p.src)
    case DaddrIn(entries) => CoversAny(entries, p.dst)
    case L4(protocol) => TransportMatches(protocol, p.transport)
    case SportIn(lo, hi) => lo <= p.sport <= hi
    case DportIn(lo, hi) => lo <= p.dport <= hi
    case TcpSyn => p.transport == TcpTransport && p.syn
  }

  predicate AllHold(ms: seq<Match>, p: Packet, sets: map<SetName, seq<Entry>>) {
    forall m :: m in ms ==> Holds(m, p, sets)
  }

  lemma AllHoldConcat(a: seq<Match>, b: seq<Match>, p: Packet, sets: map<SetName, seq<Entry>>)
    ensures AllHold(a + b, p, sets) <==> AllHold(a, p, sets) && AllHold(b, p, sets)
  {
  }

  lemma AllHoldOne(m: Match, p: Packet, sets: map<SetName, seq<Entry>>)
    ensures AllHold([m], p, sets) <==> Holds(m, p, sets)
  {
    assert m in [m];
  }

  /** Counters and the MSS option let evaluation go on; everything else ends the chain. */
  predicate Terminal(a: Action) {
    !a.CountOnly? && !a.ClampMss?
  }

  /** The first rule of a chain that matches the packet and ends its evaluation. */
  function Decide(rules: seq<NftRule>, p: Packet, sets: map<SetName, seq<Entry>>): Option<NftRule> {
    if rules == [] then None
    else if Terminal(rules[0].action) && AllHold(rules[0].matches, p, sets) then Some(rules[0])
    else Decide(rules[1..], p, sets)
  }

  lemma {:induction false} DecideConcat(a: seq<NftRule>, b: seq<NftRule>, p: Packet, sets: map<SetName, seq<Entry>>)
    ensures Decide(a + b, p, sets) == if Decide(a, p, sets).Some? then Decide(a, p, sets) else Decide(b, p, sets)
  {
    if a == [] {
      assert a + b == b;
    } else {
      assert (a + b)[1..] == a[1..] + b;
      DecideConcat(a[1..], b, p, sets);
    }
  }

  // ---------------------------------------------------------------- rulesets and scripts

  datatype Chain = Chain(spec: ChainSpec, rules: seq<NftRule>)
  datatype Table = Table(chains: map<ChainName, Chain>, sets: map<SetName, seq<Entry>>)
  type Ruleset = map<TableKey, Table>

  datatype Command =
    | AddTable(key: TableKey)
    | DeleteTable(key: TableKey)
    | AddChain(key: TableKey, chain: ChainName, spec: ChainSpec)
    | AddSet(key: TableKey, name: SetName)
    | AddElements(key: TableKey, name: SetName, entries: seq<Entry>)
    | AddRule(key: TableKey, chain: ChainName, rule: NftRule)

  type Script = seq<Command>

  predicate SetsDeclared(ms: seq<Match>, sets: map<SetName, seq<Entry>>) {
    forall m :: m in ms && m.SaddrInSet? ==> m.name in sets
  }

  /** Address matches name at least one address, and only addresses of the table's family. */
  predicate AddressesFit(ms: seq<Match>, f: Family) {
    forall m :: m in ms && (m.SaddrIn? || m.DaddrIn?) ==>
      m.entries != [] && forall e :: e in m.entries ==> EntryFamily(e) == f
  }

  predicate IsPortMatch(m: Match) {
    m.SportIn? || m.DportIn?
  }

  /** A rule is written word by word, and nft reads a protocol only as the first word of one port match (nft(8), payload
      expressions): each protocol is followed by a port match, each port match follows a protocol. */
  predicate PortsRead(ms: seq<Match>) {
    if ms == [] then true
    else if ms[0].L4? then |ms| >= 2 && IsPortMatch(ms[1]) && PortsRead(ms[2..])
    else !IsPortMatch(ms[0]) && PortsRead(ms[1..])
  }

  /** No port range runs backwards. */
  predicate RangesRun(ms: seq<Match>) {
    forall m :: m in ms && IsPortMatch(m) ==> m.lo <= m.hi
  }

  predicate ActionRuns(a: Action) {
    a.Dnat? ==> a.lo <= a.hi
  }

  predicate Accepted(r: NftRule, f: Family) {
    AddressesFit(r.matches, f) && PortsRead(r.matches) && RangesRun(r.matches) && ActionRuns(r.action)
  }

  function WithRule(t: Table, c: ChainName, r: NftRule): Table
    requires c in t.chains
  {
    t.(chains := t.chains[c := t.chains[c].(rules := t.chains[c].rules + [r])])
  }

  /** One command; None is nft's refusal because of a missing table, chain or set, a conflicting chain, or a
      rule that is not accepted in the table. */
  function Exec(c: Command, rs: Ruleset): Option<Ruleset> {
    match c
    case AddTable(key) =>
      Some(if key in rs then rs else rs[key := Table(map[], map[])])
    case DeleteTable(key) =>
      if key in rs then Some(rs - {key}) else None
    case AddChain(key, chain, spec) =>
      if key !in rs then None
      else if chain !in rs[key].chains then
        Some(rs[key := rs[key].(chains := rs[key].chains[chain := Chain(spec, [])])])
      else if rs[key].chains[chain].spec == spec then Some(rs) else None
    case AddSet(key, name) =>
      if key !in rs then None
      else if name in rs[key].sets then Some(rs)
      else Some(rs[key := rs[key].(sets := rs[key].sets[name := []])])
    case AddElements(key, name, entries) =>
      if key !in rs || name !in rs[key].sets then None
      else Some(rs[key := rs[key].(sets := rs[key].sets[name := rs[key].sets[name] + entries])])
    case AddRule(key, chain, rule) =>
      if key !in rs || chain !in rs[key].chains || !SetsDeclared(rule.matches, rs[key].sets)
         || !Accepted(rule, key.family) then None
      else
        Some(rs[key := WithRule(rs[key], chain, rule)])
  }

  /** A script is one transaction: it takes effect as a whole or not at all. */
  function Run(s: Script, rs: Ruleset): Option<Ruleset> {
    if s == [] then Some(rs)
    else if Exec(s[0], rs).None? then None
    else Run(s[1..], Exec(s[0], rs).value)
  }

  lemma {:induction false} RunConcat(a: Script, b: Script, rs: Ruleset)
    ensures Run(a + b, rs) == if Run(a, rs).None? then None else Run(b, Run(a, rs).value)
  {
    if a == [] {
      assert a + b == b;
    } else {
      assert (a + b)[1..] == a[1..] + b;
      if Exec(a[0], rs).Some? {
        RunConcat(a[1..], b, Exec(a[0], rs).value);
      }
    }
  }

  /** The rules a script adds to one chain, in order. */
  function Added(s: Script, key: TableKey, chain: ChainName): seq<NftRule> {
    if s == [] then []
    else
      (if s[0].AddRule? && s[0].key == key && s[0].chain == chain then [s[0].rule] else [])
      + Added(s[1..], key, chain)
  }

  lemma {:induction false} AddedConcat(a: Script, b: Script, key: TableKey, chain: ChainName)
    ensures Added(a + b, key, chain) == Added(a, key, chain) + Added(b, key, chain)
  {
    if a == [] {
      assert a + b == b;
    } else {
      assert (a + b)[1..] == a[1..] + b;
      AddedConcat(a[1..], b, key, chain);
    }
  }

  /** The command adds an accepted rule to a chain that exists, naming only sets that exist. */
  predicate Declared(c: Command, rs: Ruleset) {
    c.AddRule? && c.key in rs && c.chain in rs[c.key].chains && SetsDeclared(c.rule.matches, rs[c.key].sets)
    && Accepted(c.rule, c.key.family)
  }

  /** A rule with an address of the wrong family, ports that do not read, or a range that runs backwards. */
  predicate Misfit(c: Command) {
    c.AddRule? && !Accepted(c.rule, c.key.family)
  }

  /** One such rule makes nft refuse the whole script, whatever the ruleset. */
  lemma {:induction false} MisfitRefused(s: Script, c: Command, rs: Ruleset)
    requires c in s && Misfit(c)
    ensures Run(s, rs) == None
  {
    if s[0] != c && Exec(s[0], rs).Some? {
      MisfitRefused(s[1..], c, Exec(s[0], rs).value);
    }
  }

  function AppendedTable(t: Table, s: Script, key: TableKey): Table {
    t.(chains := map c | c in t.chains :: t.chains[c].(rules := t.chains[c].rules + Added(s, key, c)))
  }

  /** The ruleset with a script's rules appended chain by chain. */
  function Appended(rs: Ruleset, s: Script): Ruleset {
    map key | key in rs :: AppendedTable(rs[key], s, key)
  }

  lemma AppendedNothing(rs: Ruleset)
    ensures Appended(rs, []) == rs
  {
    forall key | key in rs ensures AppendedTable(rs[key], [], key) == rs[key] {
      forall c | c in rs[key].chains ensures AppendedTable(rs[key], [], key).chains[c] == rs[key].chains[c] {
        assert rs[key].chains[c].rules + [] == rs[key].chains[c].rules;
      }
      assert AppendedTable(rs[key], [], key).chains == rs[key].chains;
    }
  }

  lemma AddedOnto(rules: seq<NftRule>, s: Script, key: TableKey, c: ChainName)
    requires s != [] && s[0].AddRule?
    ensures (if s[0].key == key && s[0].chain == c then rules + [s[0].rule] else rules) + Added(s[1..], key, c)
            == rules + Added(s, key, c)
  {
  }

  lemma AppendedTableStep(t: Table, s: Script, key: TableKey)
    requires s != [] && s[0].AddRule?
    requires s[0].key == key ==> s[0].chain in t.chains
    ensures AppendedTable(if s[0].key == key then WithRule(t, s[0].chain, s[0].rule) else t, s[1..], key)
            == AppendedTable(t, s, key)
  {
    var t' := if s[0].key == key then WithRule(t, s[0].chain, s[0].rule) else t;
    var a, b := AppendedTable(t', s[1..], key), AppendedTable(t, s, key);
    forall c | c in t.chains ensures a.chains[c] == b.chains[c] {
      AddedOnto(t.chains[c].rules, s, key, c);
    }
    assert a.chains == b.chains;
  }

  lemma AppendedStep(s: Script, rs: Ruleset)
    requires s != [] && Declared(s[0], rs)
    ensures Appended(Exec(s[0], rs).value, s[1..]) == Appended(rs, s)
  {
    var rs' := Exec(s[0], rs).value;
    forall key | key in rs ensures AppendedTable(rs'[key], s[1..], key) == AppendedTable(rs[key], s, key) {
      AppendedTableStep(rs[key], s, key);
    }
    assert rs'.Keys == rs.Keys;
  }

  /** A list of declared rules never fails, and its effect is exactly to append them to their chains. */
  lemma {:induction false} RunDeclared(s: Script, rs: Ruleset)
    requires forall c :: c in s ==> Declared(c, rs)
    ensures Run(s, rs) == Some(Appended(rs, s))
  {
    if s == [] {
      AppendedNothing(rs);
    } else {
      assert Declared(s[0], rs);
      var rs' := Exec(s[0], rs).value;
      forall c | c in s[1..] ensures Declared(c, rs') {
        assert Declared(c, rs);
      }
      RunDeclared(s[1..], rs');
      AppendedStep(s, rs);
    }
  }
}
