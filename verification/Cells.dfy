/** The rule configuration: cells as they reach the compiler, and the settings around them. */
module Cells {
  import opened Wrappers
  import opened Net

  type Port = n: nat | n < 65536

  datatype Protocol = Tcp | Udp | AnyProtocol

  datatype IpVersion = V4 | V6 | Both

  datatype FilterChain = InputFilter | ForwardFilter

  /** A filter address as configured: a prefix or an address, or text that parses as neither. */
  datatype FilterAddress = Parsed(entry: Entry) | Unparsed

  datatype NftCell =
    | Single(enabled: bool, sport: Port, dport: Port, domain: IpText, protocol: Protocol,
             ipVersion: IpVersion, snatIp: Option<IpText>, comment: Option<string>)
    | Range(enabled: bool, portStart: Port, portEnd: Port, domain: IpText, protocol: Protocol,
            ipVersion: IpVersion, snatIp: Option<IpText>, comment: Option<string>)
    | Redirect(enabled: bool, srcPort: Port, srcPortEnd: Option<Port>, dstPort: Port, protocol: Protocol,
               ipVersion: IpVersion, comment: Option<string>)
    | Drop(chain: FilterChain, srcIp: Option<FilterAddress>, dstIp: Option<FilterAddress>,
           fromPort: Option<Port>, fromPortEnd: Option<Port>, toPort: Option<Port>, toPortEnd: Option<Port>,
           protocol: Protocol, comment: Option<string>)
  {
    predicate IsEnabled() {
      Drop? || enabled
    }

    /** The per-rule source address override; an empty string counts as unset. */
    function SnatOverride(): Option<IpText> {
      if (Single? || Range?) && snatIp.Some? && snatIp.value.text != "" then snatIp else None
    }
  }

  datatype RuntimeCell = Rule(cell: NftCell) | Comment(text: string)

  datatype AccessMode = Off | Whitelist | Blacklist

  datatype AccessConfig = AccessConfig(mode: AccessMode, entries: seq<Entry>)

  datatype GeoIpConfig = GeoIpConfig(enabled: bool, allowLan: bool, lanCidrs: seq<Entry>,
                                     forwardEnabled: bool, sshEnabled: bool, sshPort: Port, sshAllowsLan: bool)
  {
    function LanIpv4(): seq<Entry> {
      OfFamily(lanCidrs, Inet4)
    }
  }

  /** allowed: the entries that parse; the others are skipped by the check. */
  datatype EgressConfig = EgressConfig(enabled: bool, allowed: seq<Entry>)

  datatype SnatMode = SnatOff | SnatFixed | SnatMasquerade

  /** fixedSource is the trimmed text; legacyVar4 and legacyVar6 are the environment variables. */
  datatype SnatConfig = SnatConfig(mode: SnatMode, fixedSource: IpText,
                                   legacyVar4: Option<IpText>, legacyVar6: Option<IpText>)

  datatype MssConfig = MssConfig(enabled: bool, size: nat)

  /** fakeCidrs: the fake-ip prefixes that parse; the others are skipped by the check. */
  datatype DnsConfig = DnsConfig(fakeCidrs: seq<Entry>, rejectFakeIp: bool)

  datatype LastGoodConfig = LastGoodConfig(enabled: bool, useOnDnsFailure: bool)
}
