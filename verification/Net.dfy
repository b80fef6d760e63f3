/** IP addresses, prefixes and the source entries of an access list.

    Addresses are bit vectors of their real width, so a prefix test is a shift and a comparison:
    two addresses share a prefix of length n when their n leading bits agree (RFC 4632, section 3.1).
 */
module Net {
  import opened Wrappers

  datatype Family = Inet4 | Inet6

  datatype Ip = Ip4(a: bv32) | Ip6(b: bv128)

  type Len4 = n: bv8 | n <= 32
  type Len6 = n: bv8 | n <= 128

  datatype Cidr = Cidr4(base4: bv32, len4: Len4) | Cidr6(base6: bv128, len6: Len6)

  /** A list entry that parsed: a single address or a prefix. */
  datatype Entry = Host(ip: Ip) | Net(cidr: Cidr)

  /** A configuration string together with what parsing it as an IP address gives. */
  datatype IpText = IpText(text: string, literal: Option<Ip>)

  function FamilyOf(ip: Ip): Family {
    if ip.Ip4? then Inet4 else Inet6
  }

  function EntryFamily(e: Entry): Family {
    match e
    case Host(ip) => FamilyOf(ip)
    case Net(Cidr4(_, _)) => Inet4
    case Net(Cidr6(_, _)) => Inet6
  }

  /** The n leading bits of an address. */
  function Prefix4(x: bv32, n: Len4): bv32 {
    x >> (32 - n)
  }

  function Prefix6(x: bv128, n: Len6): bv128 {
    x >> (128 - n)
  }

  predicate Covers(e: Entry, ip: Ip) {
    match e
    case Host(h) => h == ip
    case Net(Cidr4(base, n)) => ip.Ip4? && Prefix4(base, n) == Prefix4(ip.a, n)
    case Net(Cidr6(base, n)) => ip.Ip6? && Prefix6(base, n) == Prefix6(ip.b, n)
  }

  predicate CoversAny(entries: seq<Entry>, ip: Ip) {
    exists e :: e in entries && Covers(e, ip)
  }

  /** Entries of one address family, in order. */
  function OfFamily(entries: seq<Entry>, f: Family): (r: seq<Entry>)
    ensures forall e :: e in r <==> e in entries && EntryFamily(e) == f
  {
    if entries == [] then []
    else if EntryFamily(entries[0]) == f then [entries[0]] + OfFamily(entries[1..], f)
    else OfFamily(entries[1..], f)
  }

  /** An entry only ever covers addresses of its own family, so splitting an access list by family
      loses no match. */
  lemma OfFamilyKeepsMatches(entries: seq<Entry>, ip: Ip)
    ensures CoversAny(OfFamily(entries, FamilyOf(ip)), ip) == CoversAny(entries, ip)
  {
    if CoversAny(entries, ip) {
      var e :| e in entries && Covers(e, ip);
      assert EntryFamily(e) == FamilyOf(ip);
      assert e in OfFamily(entries, FamilyOf(ip));
    }
  }
}
