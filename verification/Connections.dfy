/** The whole way of a packet through the hooks: translation, filtering and source NAT put together. */
module Connections {
  import opened Wrappers
  import opened Net
  import opened Cells
  import opened LastGood
  import opened Nft
  import opened Compiler
  import opened Transaction
  import opened Policy
  import opened PreroutingMeaning
  import opened FilterMeaning
  import opened SourceNatMeaning

  // ---------------------------------------------------------------- the policy of the other hooks

  function ForwardPolicy(r: Round, p: Packet): FilterOutcome {
    if SomeDrop(r, ForwardFilter, p) then DroppedHere else NoDecision
  }

  /** What the first of the first n positions that rewrites the packet does. */
  function FirstRewrite(r: Round, p: Packet, n: nat): Option<Action>
    requires n <= |r.cells|
  {
    if n == 0 then None
    else if FirstRewrite(r, p, n - 1).Some? then FirstRewrite(r, p, n - 1)
    else Rewrites(r, n - 1, p)
  }

  function SourceNatPolicy(r: Round, p: Packet): Option<Action> {
    if r.st.globalEnabled then FirstRewrite(r, p, |r.cells|) else None
  }

  lemma {:induction false} FirstRewriteIs(r: Round, p: Packet, n: nat)
    requires n <= |r.cells|
    ensures forall i :: 0 <= i < n && FirstRewriting(r, p, i) ==> FirstRewrite(r, p, n) == Rewrites(r, i, p)
    ensures (forall i :: 0 <= i < n ==> !DoesRewrite(r, i, p)) ==> FirstRewrite(r, p, n) == None
  {
    if n > 0 {
      FirstRewriteIs(r, p, n - 1);
      assert DoesRewrite(r, n - 1, p) <==> Rewrites(r, n - 1, p).Some?;
    }
  }

  lemma NoSourceNatWhenOff(r: Round, rs: Ruleset, p: Packet)
    requires !r.st.globalEnabled
    ensures KernelSourceNat(r, rs, p) == None
  {
    var outs, key := AllOuts(r.cells, r.answers, r.st, r.cache), NatTable(FamilyOf(p.src));
    InstalledRules(r.st, outs, key, Postrouting);
    PartsAdded(r.st, outs, key, Postrouting);
    GeoHeadPlaced(r.st);
    AddedElsewhere(GeoHead(r.st), key, Postrouting);
  }

  lemma PostroutingPolicyMeaning(r: Round, rs: Ruleset, p: Packet)
    requires Builds(r.cells, r.answers, r.st, r.cache) && p.ct == NewConnection
    ensures KernelSourceNat(r, rs, p) == SourceNatPolicy(r, p)
  {
    FirstRewriteIs(r, p, |r.cells|);
    if !r.st.globalEnabled {
      NoSourceNatWhenOff(r, rs, p);
    } else if k: nat :| k < |r.cells| && DoesRewrite(r, k, p) {
      var m := FirstRewritingExists(r, p, k);
      PostroutingMeaning(r, rs, p, m);
    } else {
      PostroutingIdle(r, rs, p);
    }
  }

  // ---------------------------------------------------------------- all hooks at once

  function KernelInput(rs: Ruleset, p: Packet): FilterOutcome {
    FilterResult(KernelHook(rs, InputHook, p))
  }

  function KernelForward(rs: Ruleset, p: Packet): FilterOutcome {
    FilterResult(KernelHook(rs, ForwardHook, p))
  }

  function KernelPostrouting(rs: Ruleset, p: Packet): Option<Action> {
    ActionOf(KernelHook(rs, Postrouting, p))
  }

  /** On every hook the kernel treats the packet as the policy of the round; translations and source NAT are decided by
      the first packet of a connection. */
  predicate Agrees(rs: Ruleset, r: Round, p: Packet) {
    && KernelInput(rs, p) == InputPolicy(r, p)
    && KernelForward(rs, p) == ForwardPolicy(r, p)
    && (p.ct == NewConnection ==>
          KernelPrerouting(rs, p) == PreroutingPolicy(r, p) && KernelPostrouting(rs, p) == SourceNatPolicy(r, p))
  }

  lemma HooksAgree(r: Round, rs: Ruleset, p: Packet)
    requires Builds(r.cells, r.answers, r.st, r.cache)
    ensures Agrees(After(r, rs), r, p)
  {
    InputChainMeaning(r, rs, p);
    ForwardChainMeaning(r, rs, p);
    if p.ct == NewConnection {
      CompilationPreservesMeaning(r, rs, p);
      PostroutingPolicyMeaning(r, rs, p);
    }
  }

  ghost predicate KeepsTo(rs: Ruleset, r: Round) {
    forall p: Packet :: Agrees(rs, r, p)
  }

  /** A script that is built and loads makes the kernel keep to the policy on every hook. */
  lemma RoundIsKept(r: Round, rs: Ruleset)
    requires Builds(r.cells, r.answers, r.st, r.cache)
    ensures KeepsTo(After(r, rs), r)
  {
    forall p: Packet ensures Agrees(After(r, rs), r, p) {
      HooksAgree(r, rs, p);
    }
  }

  // ---------------------------------------------------------------- the way of a new connection

  /** What the ruleset leaves open: the port taken from the range of a translation, and the machine's own addresses. */
  datatype Surroundings = Surroundings(port: Port, self: Family -> Ip, isSelf: Ip -> bool)

  /** Lost on the way, delivered on this machine, or sent on, with its source rewritten or not. */
  datatype Fate = Lost | Delivered(packet: Packet) | Sent(packet: Packet, source: Option<Action>)

  function SentTo(p: Packet, ip: Ip, port: Port): Packet {
    p.(dst := ip, dport := port)
  }

  /** The packet as it leaves prerouting; None if it is dropped there. */
  function Forwarded(v: Verdict, p: Packet, w: Surroundings): Option<Packet> {
    match v
    case Dropped => None
    case Untouched => Some(p)
    case Translated(_, RedirectTo(port)) => Some(SentTo(p, w.self(FamilyOf(p.src)), port))
    case Translated(_, Dnat(ip, lo, hi)) => Some(SentTo(p, ip, if lo <= w.port <= hi then w.port else lo))
    case Translated(_, _) => Some(p)
  }

  function KernelFate(rs: Ruleset, p: Packet, w: Surroundings): Fate {
    match Forwarded(KernelPrerouting(rs, p), p, w)
    case None => Lost
    case Some(q) =>
      if w.isSelf(q.dst) then if KernelInput(rs, q) == DroppedHere then Lost else Delivered(q)
      else if KernelForward(rs, q) == DroppedHere then Lost
      else Sent(q, KernelPostrouting(rs, q))
  }

  function PolicyFate(r: Round, p: Packet, w: Surroundings): Fate {
    match Forwarded(PreroutingPolicy(r, p), p, w)
    case None => Lost
    case Some(q) =>
      if w.isSelf(q.dst) then if InputPolicy(r, q) == DroppedHere then Lost else Delivered(q)
      else if ForwardPolicy(r, q) == DroppedHere then Lost
      else Sent(q, SourceNatPolicy(r, q))
  }

  ghost predicate FatesAreKept(rs: Ruleset, r: Round) {
    forall p: Packet, w: Surroundings :: p.ct == NewConnection ==> KernelFate(rs, p, w) == PolicyFate(r, p, w)
  }

  lemma KeptFate(rs: Ruleset, r: Round, p: Packet, w: Surroundings)
    requires KeepsTo(rs, r) && p.ct == NewConnection
    ensures KernelFate(rs, p, w) == PolicyFate(r, p, w)
  {
    assert Agrees(rs, r, p);
    if Forwarded(PreroutingPolicy(r, p), p, w).Some? {
      var q := Forwarded(PreroutingPolicy(r, p), p, w).value;
      assert Agrees(rs, r, q);
    }
  }

  /** Keeping to the policy on every hook decides the fate of every new connection. */
  lemma KeptFates(rs: Ruleset, r: Round)
    requires KeepsTo(rs, r)
    ensures FatesAreKept(rs, r)
  {
    forall p: Packet, w: Surroundings | p.ct == NewConnection ensures KernelFate(rs, p, w) == PolicyFate(r, p, w) {
      KeptFate(rs, r, p, w);
    }
  }

  /** Whatever rule translates a packet to an address and a port of its range, the translated packet is bound for it. */
  lemma TranslatedIsBound(r: Round, rs: Ruleset, p: Packet, i: nat, port: Port)
    requires r.st.globalEnabled && Builds(r.cells, r.answers, r.st, r.cache) && p.ct == NewConnection
    requires i < |r.cells| && r.cells[i].Rule?
    ensures var v := KernelPrerouting(After(r, rs), p);
            v.Translated? && v.owner == RuleIndex(r.cells, i) && v.action.Dnat? && v.action.lo <= port <= v.action.hi
            ==> BoundFor(r, i, SentTo(p, v.action.ip, port))
  {
    TranslatedByRuleIff(r, rs, p, i);
  }

  /** The first rule that rewrites the connection asks for the same as rule i, or none does and rule i asks for
      nothing. */
  predicate KeepsOwnSetting(r: Round, q: Packet, i: nat)
    requires i < |r.cells|
  {
    (exists m :: 0 <= m < |r.cells| && FirstRewriting(r, q, m) && Rewrites(r, m, q) == Rewrites(r, i, q))
    || (NoneRewrites(r, q) && Rewrites(r, i, q).None?)
  }

  lemma OwnSettingInPolicyIff(r: Round, q: Packet, i: nat)
    requires r.st.globalEnabled && Builds(r.cells, r.answers, r.st, r.cache) && q.ct == NewConnection
    requires i < |r.cells| && BoundFor(r, i, q)
    ensures SourceNatPolicy(r, q) == Rewrites(r, i, q) <==> KeepsOwnSetting(r, q, i)
  {
    OwnSettingHonouredIff(r, map[], q, i);
    PostroutingPolicyMeaning(r, map[], q);
  }

  /** The way of a connection that a rule forwards, from end to end: the first rule that serves it, whose source is
      admitted, sends it to its target; there a forward filter may drop it, and otherwise it leaves with the rule's own
      source NAT setting exactly when no rule in front of it rewrites connections to that target differently. */
  lemma ForwardedConnection(r: Round, rs: Ruleset, p: Packet, i: nat, w: Surroundings)
    requires r.st.globalEnabled && Builds(r.cells, r.answers, r.st, r.cache) && p.ct == NewConnection
    requires FirstServing(r, p, i) && AccessAdmits(r.st.access, p.src)
    requires p.src.Ip4? && r.GeoIpInForce() ==> r.FromCnOrLan(p.src)
    requires var s := r.Service(i, FamilyOf(p.src)).value; s.Dnat? && s.lo <= w.port <= s.hi && !w.isSelf(s.ip)
    ensures var q := SentTo(p, r.Service(i, FamilyOf(p.src)).value.ip, w.port);
            && BoundFor(r, i, q)
            && KernelFate(After(r, rs), p, w)
               == (if SomeDrop(r, ForwardFilter, q) then Lost else Sent(q, SourceNatPolicy(r, q)))
            && (SourceNatPolicy(r, q) == Rewrites(r, i, q) <==> KeepsOwnSetting(r, q, i))
  {
    ForwardedByPolicy(r, p, i, w);
    RoundIsKept(r, rs);
    KeptFate(After(r, rs), r, p, w);
    OwnSettingInPolicyIff(r, SentTo(p, r.Service(i, FamilyOf(p.src)).value.ip, w.port), i);
  }

  lemma ForwardedByPolicy(r: Round, p: Packet, i: nat, w: Surroundings)
    requires r.st.globalEnabled && FirstServing(r, p, i) && AccessAdmits(r.st.access, p.src)
    requires p.src.Ip4? && r.GeoIpInForce() ==> r.FromCnOrLan(p.src)
    requires var s := r.Service(i, FamilyOf(p.src)).value; s.Dnat? && s.lo <= w.port <= s.hi && !w.isSelf(s.ip)
    ensures var q := SentTo(p, r.Service(i, FamilyOf(p.src)).value.ip, w.port);
            && BoundFor(r, i, q)
            && PolicyFate(r, p, w) == if SomeDrop(r, ForwardFilter, q) then Lost else Sent(q, SourceNatPolicy(r, q))
  {
    PolicyTranslatesIff(r, p, i);
  }
}
