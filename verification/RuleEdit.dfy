/** Editing one rule of the configuration: what an edit may change, which rules it conflicts with, and what an
    accepted edit preserves. */
module RuleEdit {
  import opened Wrappers
  import opened Net
  import opened Cells
  import opened RuleKeys
  import opened Nft
  import opened Compiler

  // ---------------------------------------------------------------- validity of one rule

  predicate Blank(s: string) {
    forall c :: c in s ==> IsWhitespace(c)
  }

  /** A source override is empty, or an IPv4 address without white space on an IPv4-only rule. */
  predicate ValidSnat(snat: Option<IpText>, version: IpVersion) {
    snat.Some? && snat.value.text != "" ==>
      (forall c :: c in snat.value.text ==> !IsWhitespace(c))
      && snat.value.literal.Some? && snat.value.literal.value.Ip4? && version.V4?
  }

  predicate ValidPortFilter(port: Option<Port>, end: Option<Port>) {
    port.Some? ==> port.value != 0 && (end.Some? ==> end.value != 0 && port.value < end.value)
  }

  predicate Valid(cell: NftCell) {
    match cell
    case Single(_, sport, dport, domain, _, version, snat, _) =>
      !Blank(domain.text) && sport != 0 && dport != 0 && ValidSnat(snat, version)
    case Range(_, lo, hi, domain, _, version, snat, _) =>
      !Blank(domain.text) && lo < hi && lo != 0 && hi != 0 && ValidSnat(snat, version)
    case Redirect(_, src, end, dst, _, _, _) =>
      (end.Some? ==> src < end.value && end.value != 0) && src != 0 && dst != 0
    case Drop(_, src, dst, fromPort, fromEnd, toPort, toEnd, _, _) =>
      (src.Some? || dst.Some? || fromPort.Some? || toPort.Some?)
      && ValidPortFilter(fromPort, fromEnd) && ValidPortFilter(toPort, toEnd)
      && (src.Some? ==> src.value.Parsed?) && (dst.Some? ==> dst.value.Parsed?)
  }

  // ---------------------------------------------------------------- building the edited rule

  datatype PortRange = PortRange(start: Port, end: Port)
  {
    predicate IsSingle() {
      start == end
    }

    predicate Overlaps(other: PortRange) {
      start <= other.end && other.start <= end
    }
  }

  /** What the editor asked for. target: the trimmed text, or None if it is no address or host name. */
  datatype RuleEditPatch = RuleEditPatch(
    sport: Option<PortRange>, target: Option<Option<IpText>>, dport: Option<Port>, protocol: Option<Protocol>,
    enabled: Option<bool>, snatIp: Option<Option<IpText>>, comment: Option<Option<string>>)

  datatype EditError = PortKindChanges | BadTarget | FixedField | NotEditable | InvalidRule

  function Or<T>(next: Option<T>, current: T): T {
    if next.Some? then next.value else current
  }

  /** The first thing wrong with the patch itself, in the order the fields are looked at. */
  function PatchError(original: NftCell, patch: RuleEditPatch): Option<EditError> {
    var rejected := patch.target.Some? && patch.target.value.None?;
    match original
    case Single(_, _, _, _, _, _, _, _) =>
      if patch.sport.Some? && !patch.sport.value.IsSingle() then Some(PortKindChanges)
      else if rejected then Some(BadTarget) else None
    case Range(_, _, _, _, _, _, _, _) =>
      if patch.sport.Some? && patch.sport.value.IsSingle() then Some(PortKindChanges)
      else if rejected then Some(BadTarget)
      else if patch.dport.Some? then Some(FixedField) else None
    case Redirect(_, _, end, _, _, _, _) =>
      if patch.sport.Some? && patch.sport.value.IsSingle() == end.Some? then Some(PortKindChanges)
      else if patch.target.Some? then Some(FixedField) else None
    case Drop(_, _, _, _, _, _, _, _, _) => Some(NotEditable)
  }

  /** Each field as the patch has it, or as it was; kind and IP version always stay. */
  function Patched(original: NftCell, patch: RuleEditPatch): NftCell
    requires PatchError(original, patch).None?
  {
    var ports := Or(patch.sport, PortRange(ListenLo(original), ListenHi(original)));
    var enabled, protocol := Or(patch.enabled, original.IsEnabled()), Or(patch.protocol, original.protocol);
    var comment := Or(patch.comment, original.comment);
    match original
    case Single(_, _, dport, domain, _, version, snat, _) =>
      var target := if patch.target.Some? then patch.target.value.value else domain;
      Single(enabled, ports.start, Or(patch.dport, dport), target, protocol, version, Or(patch.snatIp, snat), comment)
    case Range(_, _, _, domain, _, version, snat, _) =>
      var target := if patch.target.Some? then patch.target.value.value else domain;
      Range(enabled, ports.start, ports.end, target, protocol, version, Or(patch.snatIp, snat), comment)
    case Redirect(_, _, end, dst, _, version, _) =>
      Redirect(enabled, ports.start, if end.Some? then Some(ports.end) else None, Or(patch.dport, dst),
               protocol, version, comment)
  }

  /** The outcome before the edited rule is validated. */
  function EditOutcome(original: NftCell, patch: RuleEditPatch): Result<NftCell, EditError> {
    var e := PatchError(original, patch);
    if e.Some? then Failure(e.value) else Success(Patched(original, patch))
  }

  function EditedRule(original: NftCell, patch: RuleEditPatch): Result<NftCell, EditError> {
    var r := EditOutcome(original, patch);
    if r.Success? && !Valid(r.value) then Failure(InvalidRule) else r
  }

  method EditSingle(original: NftCell, patch: RuleEditPatch) returns (r: Result<NftCell, EditError>)
    requires original.Single?
    ensures r == EditOutcome(original, patch)
  {
    var Single(enabled, sport, dport, domain, protocol, version, snatIp, comment) := original;
    if patch.enabled.Some? {
      enabled := patch.enabled.value;
    }
    if patch.sport.Some? {
      if !patch.sport.value.IsSingle() {
        return Failure(PortKindChanges);
      }
      sport := patch.sport.value.start;
    }
    if patch.target.Some? {
      if patch.target.value.None? {
        return Failure(BadTarget);
      }
      domain := patch.target.value.value;
    }
    if patch.dport.Some? {
      dport := patch.dport.value;
    }
    if patch.protocol.Some? {
      protocol := patch.protocol.value;
    }
    if patch.snatIp.Some? {
      snatIp := patch.snatIp.value;
    }
    if patch.comment.Some? {
      comment := patch.comment.value;
    }
    return Success(Single(enabled, sport, dport, domain, protocol, version, snatIp, comment));
  }

  method EditRange(original: NftCell, patch: RuleEditPatch) returns (r: Result<NftCell, EditError>)
    requires original.Range?
    ensures r == EditOutcome(original, patch)
  {
    var Range(enabled, portStart, portEnd, domain, protocol, version, snatIp, comment) := original;
    if patch.enabled.Some? {
      enabled := patch.enabled.value;
    }
    if patch.sport.Some? {
      if patch.sport.value.IsSingle() {
        return Failure(PortKindChanges);
      }
      portStart := patch.sport.value.start;
      portEnd := patch.sport.value.end;
    }
    if patch.target.Some? {
      if patch.target.value.None? {
        return Failure(BadTarget);
      }
      domain := patch.target.value.value;
    }
    if patch.dport.Some? {
      return Failure(FixedField);
    }
    if patch.protocol.Some? {
      protocol := patch.protocol.value;
    }
    if patch.snatIp.Some? {
      snatIp := patch.snatIp.value;
    }
    if patch.comment.Some? {
      comment := patch.comment.value;
    }
    return Success(Range(enabled, portStart, portEnd, domain, protocol, version, snatIp, comment));
  }

  method EditRedirect(original: NftCell, patch: RuleEditPatch) returns (r: Result<NftCell, EditError>)
    requires original.Redirect?
    ensures r == EditOutcome(original, patch)
  {
    var Redirect(enabled, srcPort, srcPortEnd, dstPort, protocol, version, comment) := original;
    if patch.enabled.Some? {
      enabled := patch.enabled.value;
    }
    if patch.sport.Some? {
      match srcPortEnd {
        case Some(_) =>
          if patch.sport.value.IsSingle() {
            return Failure(PortKindChanges);
          }
          srcPort := patch.sport.value.start;
          srcPortEnd := Some(patch.sport.value.end);
        case None =>
          if !patch.sport.value.IsSingle() {
            return Failure(PortKindChanges);
          }
          srcPort := patch.sport.value.start;
      }
    }
    if patch.target.Some? {
      return Failure(FixedField);
    }
    if patch.dport.Some? {
      dstPort := patch.dport.value;
    }
    if patch.protocol.Some? {
      protocol := patch.protocol.value;
    }
    if patch.comment.Some? {
      comment := patch.comment.value;
    }
    return Success(Redirect(enabled, srcPort, srcPortEnd, dstPort, protocol, version, comment));
  }

  method BuildEditedRule(original: NftCell, patch: RuleEditPatch) returns (r: Result<NftCell, EditError>)
    ensures r == EditedRule(original, patch)
  {
    match original {
      case Single(_, _, _, _, _, _, _, _) => r := EditSingle(original, patch);
      case Range(_, _, _, _, _, _, _, _) => r := EditRange(original, patch);
      case Redirect(_, _, _, _, _, _, _) => r := EditRedirect(original, patch);
      case Drop(_, _, _, _, _, _, _, _, _) => return Failure(NotEditable);
    }
    if r.Success? && !Valid(r.value) {
      return Failure(InvalidRule);
    }
  }

  // ---------------------------------------------------------------- conflicts

  /** The connections a rule claims: ports, protocol and IP version. Filter rules claim none. */
  datatype Ingress = Ingress(ports: PortRange, protocol: Protocol, version: IpVersion)

  function RuleIngress(cell: NftCell): Option<Ingress> {
    if cell.Drop? then None
    else Some(Ingress(PortRange(ListenLo(cell), ListenHi(cell)), cell.protocol, cell.ipVersion))
  }

  predicate ProtocolsOverlap(a: Protocol, b: Protocol) {
    a == b || a.AnyProtocol? || b.AnyProtocol?
  }

  predicate VersionsOverlap(a: IpVersion, b: IpVersion) {
    a == b || a.Both? || b.Both?
  }

  predicate IngressesOverlap(a: Ingress, b: Ingress) {
    a.ports.Overlaps(b.ports) && ProtocolsOverlap(a.protocol, b.protocol) && VersionsOverlap(a.version, b.version)
  }

  predicate InConflict(edited: NftCell, other: NftCell) {
    edited.IsEnabled() && other.IsEnabled() && RuleIngress(edited).Some? && RuleIngress(other).Some?
    && IngressesOverlap(RuleIngress(edited).value, RuleIngress(other).value)
  }

  /** Numbers of the first n rules, other than the edited one, that conflict with the edited rule. */
  function Conflicts(rules: seq<NftCell>, index: nat, edited: NftCell, n: nat): seq<nat>
    requires n <= |rules|
  {
    if n == 0 then []
    else Conflicts(rules, index, edited, n - 1)
         + if n - 1 != index && InConflict(edited, rules[n - 1]) then [n - 1] else []
  }

  predicate ServesFamily(version: IpVersion, f: Family) {
    match version case V4 => f.Inet4? case V6 => f.Inet6? case Both => true
  }

  /** The rule is enabled and takes connections of this family and protocol to this port. */
  predicate Claims(cell: NftCell, f: Family, t: Transport, port: Port) {
    cell.IsEnabled() && !cell.Drop? && ServesFamily(cell.ipVersion, f) && TransportMatches(cell.protocol, t)
    && ListenLo(cell) <= port <= ListenHi(cell)
  }

  /** Some connection is claimed by both rules. */
  ghost predicate Compete(a: NftCell, b: NftCell) {
    exists f, t, port :: Claims(a, f, t, port) && Claims(b, f, t, port)
  }

  lemma CompeteIsSymmetric(a: NftCell, b: NftCell)
    ensures Compete(a, b) <==> Compete(b, a)
  {
    if f, t, port :| Claims(a, f, t, port) && Claims(b, f, t, port) {
      assert Claims(b, f, t, port) && Claims(a, f, t, port);
    }
  }

  /** The overlap test is exact: two rules with well-formed port ranges overlap exactly when some family,
      protocol and port is claimed by both. */
  lemma ConflictIff(a: NftCell, b: NftCell)
    requires !a.Drop? ==> ListenLo(a) <= ListenHi(a)
    requires !b.Drop? ==> ListenLo(b) <= ListenHi(b)
    ensures InConflict(a, b) <==> Compete(a, b)
  {
    if InConflict(a, b) {
      var f := if a.ipVersion.V6? || b.ipVersion.V6? then Inet6 else Inet4;
      var t := if a.protocol.Udp? || b.protocol.Udp? then UdpTransport else TcpTransport;
      var port := if ListenLo(a) < ListenLo(b) then ListenLo(b) else ListenLo(a);
      assert Claims(a, f, t, port) && Claims(b, f, t, port);
    }
  }

  predicate AllValid(rules: seq<NftCell>) {
    forall r :: r in rules ==> Valid(r)
  }

  lemma {:induction false} ConflictsAt(rules: seq<NftCell>, index: nat, edited: NftCell, n: nat, j: nat)
    requires n <= |rules|
    ensures j in Conflicts(rules, index, edited, n) <==> j < n && j != index && InConflict(edited, rules[j])
  {
    if n > 0 {
      ConflictsAt(rules, index, edited, n - 1, j);
    }
  }

  /** Conflict detection reports rule j exactly when some connection is claimed by both it and the edited rule. */
  lemma ConflictsReportedIff(rules: seq<NftCell>, index: nat, edited: NftCell, j: nat)
    requires AllValid(rules) && Valid(edited)
    ensures j in Conflicts(rules, index, edited, |rules|) <==> j < |rules| && j != index && Compete(edited, rules[j])
  {
    ConflictsAt(rules, index, edited, |rules|, j);
    if j < |rules| {
      assert rules[j] in rules;
      ConflictIff(edited, rules[j]);
    }
  }

  // ---------------------------------------------------------------- applying an edit

  datatype PortText = NoPort | PortText(lo: Port, hi: Option<Port>)

  /** What a rule shows in the editor; fields compare as the texts do. */
  datatype Snapshot = Snapshot(kind: nat, sport: PortText, target: string, dport: PortText, protocol: Protocol,
                               version: Option<IpVersion>, snatIp: string, enabled: bool, comment: Option<string>)

  function SnatText(cell: NftCell): string {
    if cell.SnatOverride().Some? then cell.SnatOverride().value.text else "default"
  }

  function SnapshotOf(cell: NftCell): Snapshot {
    match cell
    case Single(enabled, sport, dport, domain, protocol, version, _, comment) =>
      Snapshot(0, PortText(sport, None), domain.text, PortText(dport, None), protocol, Some(version), SnatText(cell),
               enabled, comment)
    case Range(enabled, lo, hi, domain, protocol, version, _, comment) =>
      Snapshot(1, PortText(lo, Some(hi)), domain.text, PortText(lo, Some(hi)), protocol, Some(version), SnatText(cell),
               enabled, comment)
    case Redirect(enabled, src, end, dst, protocol, version, comment) =>
      Snapshot(2, PortText(src, end), "localhost", PortText(dst, None), protocol, Some(version), "-", enabled, comment)
    case Drop(_, _, _, _, _, _, _, protocol, comment) =>
      Snapshot(3, NoPort, "-", NoPort, protocol, None, "-", true, comment)
  }

  datatype Field = FSport | FTarget | FDport | FProtocol | FEnabled | FSnatIp | FComment

  predicate Differs(f: Field, a: Snapshot, b: Snapshot) {
    match f
    case FSport => a.sport != b.sport
    case FTarget => a.target != b.target
    case FDport => a.dport != b.dport
    case FProtocol => a.protocol != b.protocol
    case FEnabled => a.enabled != b.enabled
    case FSnatIp => a.snatIp != b.snatIp
    case FComment => a.comment != b.comment
  }

  /** The order in which fields are compared; kind and IP version are not among them. */
  const FIELDS := [FSport, FTarget, FDport, FProtocol, FEnabled, FSnatIp, FComment]

  function ChangedAmong(fields: seq<Field>, a: Snapshot, b: Snapshot): (r: seq<Field>)
    ensures forall f :: f in r <==> f in fields && Differs(f, a, b)
  {
    if fields == [] then []
    else (if Differs(fields[0], a, b) then [fields[0]] else []) + ChangedAmong(fields[1..], a, b)
  }

  function ChangedFields(a: Snapshot, b: Snapshot): seq<Field> {
    ChangedAmong(FIELDS, a, b)
  }

  lemma EveryFieldCompared(f: Field)
    ensures f in FIELDS
  {
    match f
    case FSport => assert FIELDS[0] == f;
    case FTarget => assert FIELDS[1] == f;
    case FDport => assert FIELDS[2] == f;
    case FProtocol => assert FIELDS[3] == f;
    case FEnabled => assert FIELDS[4] == f;
    case FSnatIp => assert FIELDS[5] == f;
    case FComment => assert FIELDS[6] == f;
  }

  /** Nothing is reported as changed exactly when the two rules show the same in all seven fields. */
  lemma NothingChangedIff(a: Snapshot, b: Snapshot)
    ensures ChangedFields(a, b) == [] <==> a.(kind := b.kind, version := b.version) == b
  {
    var r := ChangedFields(a, b);
    if r == [] {
      forall f ensures !Differs(f, a, b) {
        EveryFieldCompared(f);
      }
      assert !Differs(FSport, a, b) && !Differs(FTarget, a, b) && !Differs(FDport, a, b) && !Differs(FProtocol, a, b);
      assert !Differs(FEnabled, a, b) && !Differs(FSnatIp, a, b) && !Differs(FComment, a, b);
    } else {
      assert r[0] in r;
    }
  }

  datatype ApplyError = OutOfRange | Rejected | ConflictsWith(others: seq<nat>)

  function AppliedEdit(rules: seq<NftCell>, index: nat, edited: NftCell): Result<seq<Field>, ApplyError> {
    if index >= |rules| then Failure(OutOfRange)
    else if !Valid(edited) then Failure(Rejected)
    else if Conflicts(rules, index, edited, |rules|) != [] then
      Failure(ConflictsWith(Conflicts(rules, index, edited, |rules|)))
    else Success(ChangedFields(SnapshotOf(rules[index]), SnapshotOf(edited)))
  }

  function RulesAfterEdit(rules: seq<NftCell>, index: nat, edited: NftCell): seq<NftCell> {
    var r := AppliedEdit(rules, index, edited);
    if r.Success? && r.value != [] then rules[index := edited] else rules
  }

  class TomlConfig {
    var rules: seq<NftCell>

    constructor (rules: seq<NftCell>)
      ensures this.rules == rules
    {
      this.rules := rules;
    }

    method FindRuleEditConflicts(index: nat, edited: NftCell) returns (conflicts: seq<nat>)
      ensures conflicts == Conflicts(rules, index, edited, |rules|)
    {
      conflicts := [];
      for j := 0 to |rules|
        invariant conflicts == Conflicts(rules, index, edited, j)
      {
        if j != index && InConflict(edited, rules[j]) {
          conflicts := conflicts + [j];
        }
      }
    }

    method ApplyRuleEdit(index: nat, edited: NftCell) returns (r: Result<seq<Field>, ApplyError>)
      modifies this
      ensures r == AppliedEdit(old(rules), index, edited)
      ensures rules == RulesAfterEdit(old(rules), index, edited)
    {
      if index >= |rules| {
        return Failure(OutOfRange);
      }
      if !Valid(edited) {
        return Failure(Rejected);
      }
      var conflicts := FindRuleEditConflicts(index, edited);
      if conflicts != [] {
        return Failure(ConflictsWith(conflicts));
      }
      var changed := ChangedFields(SnapshotOf(rules[index]), SnapshotOf(edited));
      if changed != [] {
        rules := rules[index := edited];
      }
      return Success(changed);
    }
  }

  /** No connection is claimed by two rules. */
  ghost predicate Disjoint(rules: seq<NftCell>) {
    forall i, j :: 0 <= i < j < |rules| ==> !Compete(rules[i], rules[j])
  }

  /** An edit of a disjoint configuration, accepted or not, leaves it valid and disjoint. */
  lemma EditKeepsDisjoint(rules: seq<NftCell>, index: nat, edited: NftCell)
    requires AllValid(rules) && Disjoint(rules)
    ensures AllValid(RulesAfterEdit(rules, index, edited)) && Disjoint(RulesAfterEdit(rules, index, edited))
  {
    var after := RulesAfterEdit(rules, index, edited);
    if after != rules {
      forall j | 0 <= j < |rules| && j != index ensures !Compete(edited, rules[j]) && !Compete(rules[j], edited) {
        ConflictsReportedIff(rules, index, edited, j);
        CompeteIsSymmetric(edited, rules[j]);
      }
    }
  }

  /** Only edits that show are stored. An edit the editor builds keeps kind and IP version, so whenever it is
      accepted the rule afterwards shows exactly what was asked for. */
  lemma AcceptedEditTakesEffect(rules: seq<NftCell>, index: nat, patch: RuleEditPatch)
    requires index < |rules| && EditedRule(rules[index], patch).Success?
    requires AppliedEdit(rules, index, EditedRule(rules[index], patch).value).Success?
    ensures var edited := EditedRule(rules[index], patch).value;
            SnapshotOf(RulesAfterEdit(rules, index, edited)[index]) == SnapshotOf(edited)
    ensures forall j :: 0 <= j < |rules| && j != index ==>
              RulesAfterEdit(rules, index, EditedRule(rules[index], patch).value)[j] == rules[j]
  {
    var a, b := SnapshotOf(rules[index]), SnapshotOf(EditedRule(rules[index], patch).value);
    assert a.kind == b.kind && a.version == b.version;
    NothingChangedIff(a, b);
  }
}
