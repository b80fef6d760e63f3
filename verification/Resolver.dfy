/** Live target resolution: family filtering, fake-ip rejection and the choice of one address. */
module Resolver {
  import opened Wrappers
  import opened Net
  import opened Cells

  datatype ResolveError = WrongFamily | FakeAddress(ip: Ip) | ResolverFailed | NoAddress

  /** What the system resolver returned for a name, or None when it failed. */
  type Answer = Option<seq<Ip>>

  predicate IsFakeIp(ip: Ip, dns: DnsConfig) {
    CoversAny(dns.fakeCidrs, ip)
  }

  predicate Fits(ip: Ip, version: IpVersion) {
    match version case V4 => ip.Ip4? case V6 => ip.Ip6? case Both => true
  }

  function Candidates(ips: seq<Ip>, version: IpVersion): (r: seq<Ip>)
    ensures forall ip :: ip in r <==> ip in ips && Fits(ip, version)
  {
    if ips == [] then []
    else if Fits(ips[0], version) then [ips[0]] + Candidates(ips[1..], version)
    else Candidates(ips[1..], version)
  }

  function FirstOf(ips: seq<Ip>, f: Family): (r: Option<Ip>)
    ensures r.None? <==> forall ip :: ip in ips ==> FamilyOf(ip) != f
    ensures r.Some? ==> r.value in ips && FamilyOf(r.value) == f
  {
    if ips == [] then None
    else if FamilyOf(ips[0]) == f then Some(ips[0])
    else FirstOf(ips[1..], f)
  }

  function Select(candidates: seq<Ip>, version: IpVersion): Option<Ip> {
    match version
    case V4 => FirstOf(candidates, Inet4)
    case V6 => FirstOf(candidates, Inet6)
    case Both =>
      var four := FirstOf(candidates, Inet4);
      if four.Some? then four else FirstOf(candidates, Inet6)
  }

  /** Position of the first fake address, or the length of the list. */
  function FirstFake(ips: seq<Ip>, dns: DnsConfig): (n: nat)
    ensures n <= |ips|
    ensures n < |ips| ==> IsFakeIp(ips[n], dns)
    ensures forall i :: 0 <= i < n ==> !IsFakeIp(ips[i], dns)
  {
    if ips == [] || IsFakeIp(ips[0], dns) then 0 else 1 + FirstFake(ips[1..], dns)
  }

  function RemoteIp(domain: IpText, version: IpVersion, dns: DnsConfig, answer: Answer): Result<Ip, ResolveError> {
    if domain.literal.Some? then
      var ip := domain.literal.value;
      if IsFakeIp(ip, dns) && dns.rejectFakeIp then Failure(FakeAddress(ip))
      else if Fits(ip, version) then Success(ip)
      else Failure(WrongFamily)
    else if answer.None? then Failure(ResolverFailed)
    else
      var candidates := Candidates(answer.value, version);
      var n := FirstFake(candidates, dns);
      if dns.rejectFakeIp && n < |candidates| then Failure(FakeAddress(candidates[n]))
      else
        var selected := Select(candidates, version);
        if selected.None? then Failure(NoAddress) else Success(selected.value)
  }

  method RemoteIpWithResolver(domain: IpText, version: IpVersion, dns: DnsConfig, answer: Answer)
    returns (r: Result<Ip, ResolveError>)
    ensures r == RemoteIp(domain, version, dns, answer)
  {
    if domain.literal.Some? {
      var ip := domain.literal.value;
      if IsFakeIp(ip, dns) && dns.rejectFakeIp {
        return Failure(FakeAddress(ip));
      }
      return if Fits(ip, version) then Success(ip) else Failure(WrongFamily);
    }
    if answer.None? {
      return Failure(ResolverFailed);
    }
    var candidates := Candidates(answer.value, version);
    var selected := Select(candidates, version);
    var sawFake := None;
    for i := 0 to |candidates|
      invariant dns.rejectFakeIp ==> forall j :: 0 <= j < i ==> !IsFakeIp(candidates[j], dns)
      invariant dns.rejectFakeIp ==> sawFake.None?
    {
      if IsFakeIp(candidates[i], dns) {
        sawFake := Some(candidates[i]);
        if dns.rejectFakeIp {
          return Failure(FakeAddress(candidates[i]));
        }
      }
    }
    if selected.None? {
      return Failure(NoAddress);
    }
    // The source tests the chosen address once more before returning it; that test can never reject.
    assert selected.value in candidates;
    assert !(dns.rejectFakeIp && (sawFake == selected || IsFakeIp(selected.value, dns)));
    return Success(selected.value);
  }

  /** What a successful resolution guarantees: the address fits the rule's IP version, was really
      offered (or is the literal), is not fake when fakes are rejected, and IPv6 is only chosen for a
      rule of either version when no IPv4 address was offered. */
  lemma ResolvedAddressIsSound(domain: IpText, version: IpVersion, dns: DnsConfig, answer: Answer)
    requires RemoteIp(domain, version, dns, answer).Success?
    ensures var ip := RemoteIp(domain, version, dns, answer).value;
            && Fits(ip, version)
            && (dns.rejectFakeIp ==> !IsFakeIp(ip, dns))
            && (domain.literal.Some? ==> ip == domain.literal.value)
            && (domain.literal.None? ==> answer.Some? && ip in answer.value)
            && (domain.literal.None? && version.Both? && ip.Ip6? ==> forall o :: o in answer.value ==> o.Ip6?)
  {
    if domain.literal.None? {
      var candidates := Candidates(answer.value, version);
      var ip := RemoteIp(domain, version, dns, answer).value;
      assert ip in candidates;
      if dns.rejectFakeIp {
        var i :| 0 <= i < |candidates| && candidates[i] == ip;
        assert i < FirstFake(candidates, dns);
      }
    }
  }

  /** A name resolves exactly when some offered address fits and, if fakes are rejected, none of the
      fitting ones is fake: a single fake answer spoils the whole resolution. */
  lemma NameResolvesIff(name: string, version: IpVersion, dns: DnsConfig, answer: Answer)
    ensures RemoteIp(IpText(name, None), version, dns, answer).Success? <==>
            answer.Some?
            && (exists ip :: ip in answer.value && Fits(ip, version))
            && (dns.rejectFakeIp ==> forall ip :: ip in answer.value && Fits(ip, version) ==> !IsFakeIp(ip, dns))
  {
    if answer.Some? {
      var candidates := Candidates(answer.value, version);
      var n := FirstFake(candidates, dns);
      if n < |candidates| {
        assert candidates[n] in answer.value && Fits(candidates[n], version) && IsFakeIp(candidates[n], dns);
      } else {
        forall ip | ip in answer.value && Fits(ip, version) ensures !IsFakeIp(ip, dns) {
          assert ip in candidates;
          var i :| 0 <= i < |candidates| && candidates[i] == ip;
        }
      }
      if exists ip :: ip in answer.value && Fits(ip, version) {
        var ip :| ip in answer.value && Fits(ip, version);
        assert ip in candidates;
        assert Select(candidates, version).Some?;
      }
    }
  }
}
