/** Rule identities for the last-good cache: decimal text, domain normalisation and key strings. */
module RuleKeys {
  import opened Wrappers
  import opened Cells

  /** One decimal digit. */
  function Digit(n: nat): char
    requires n < 10
  {
    '0' + (n as char)
  }

  /** A number the way Rust formats it. */
  function Dec(n: nat): (s: string)
    ensures s != []
    ensures forall c :: c in s ==> '0' <= c <= '9'
  {
    if n < 10 then [Digit(n)] else Dec(n / 10) + [Digit(n % 10)]
  }

  lemma {:induction false} DecInjective(m: nat, n: nat)
    requires Dec(m) == Dec(n)
    ensures m == n
  {
    var s, t := Dec(m), Dec(n);
    assert s[|s| - 1] == Digit(m % 10) && t[|t| - 1] == Digit(n % 10);
    assert m % 10 == n % 10;
    assert |s| == 1 <==> m < 10;
    assert |t| == 1 <==> n < 10;
    if m >= 10 {
      assert s[..|s| - 1] == Dec(m / 10) && t[..|t| - 1] == Dec(n / 10);
      DecInjective(m / 10, n / 10);
    }
  }

  /** The Unicode White_Space property, which decides what trimming removes. */
  predicate IsWhitespace(c: char) {
    '\t' <= c <= '\r' || c == ' ' || c == '\U{85}' || c == '\U{a0}' || c == '\U{1680}'
    || '\U{2000}' <= c <= '\U{200a}' || c == '\U{2028}' || c == '\U{2029}' || c == '\U{202f}'
    || c == '\U{205f}' || c == '\U{3000}'
  }

  function AsciiLower(c: char): char {
    if 'A' <= c <= 'Z' then c - 'A' + 'a' else c
  }

  function LowerCase(s: string): (r: string)
    ensures |r| == |s|
  {
    if s == [] then [] else [AsciiLower(s[0])] + LowerCase(s[1..])
  }

  /** White space trimmed off both ends, ASCII letters lowered. */
  function NormalizeDomain(s: string): string {
    if s != [] && IsWhitespace(s[0]) then NormalizeDomain(s[1..])
    else if s != [] && IsWhitespace(s[|s| - 1]) then NormalizeDomain(s[..|s| - 1])
    else LowerCase(s)
  }

  predicate SameDomain(left: string, right: string) {
    NormalizeDomain(left) == NormalizeDomain(right)
  }

  function ProtocolKey(p: Protocol): string {
    match p case Tcp => "tcp" case Udp => "udp" case AnyProtocol => "all"
  }

  function VersionKey(v: IpVersion): string {
    match v case V4 => "ipv4" case V6 => "ipv6" case Both => "all"
  }

  /** Only rules with a name to resolve take part in the cache; a literal target never does. */
  predicate Cacheable(cell: NftCell) {
    (cell.Single? || cell.Range?) && cell.domain.literal.None?
  }

  function RuleKey(cell: NftCell): Option<string> {
    match cell
    case Single(_, sport, dport, domain, protocol, version, _, _) =>
      if domain.literal.Some? then None
      else Some("single|sport=" + Dec(sport) + "|dport=" + Dec(dport) + "|protocol=" + ProtocolKey(protocol)
                + "|ip_version=" + VersionKey(version) + "|target=" + NormalizeDomain(domain.text))
    case Range(_, lo, hi, domain, protocol, version, _, _) =>
      if domain.literal.Some? then None
      else Some("range|port_start=" + Dec(lo) + "|port_end=" + Dec(hi) + "|protocol=" + ProtocolKey(protocol)
                + "|ip_version=" + VersionKey(version) + "|target=" + NormalizeDomain(domain.text))
    case _ => None
  }

  datatype RuleIdentity = RuleIdentity(ruleId: string, ruleKey: string, domain: string)

  function RuleId(index: nat): string {
    "r" + Dec(index)
  }

  function IdentityForRule(ruleId: string, cell: NftCell): Option<RuleIdentity> {
    if Cacheable(cell) then Some(RuleIdentity(ruleId, RuleKey(cell).value, cell.domain.text)) else None
  }

  // ---------------------------------------------------------------- injectivity of the key strings

  /** Two delimiter-free fields followed by the delimiter are read back uniquely. */
  lemma {:induction false} SplitAt(a: string, b: string, c: char, x: string, y: string)
    requires c !in a && c !in b
    requires a + [c] + x == b + [c] + y
    ensures a == b && x == y
  {
    var s, t := a + [c] + x, b + [c] + y;
    assert s[0] == t[0];
    assert s[0] == (if a == [] then c else a[0]) && t[0] == (if b == [] then c else b[0]);
    assert a == [] <==> b == [];
    if a == [] {
      assert s[1..] == x && t[1..] == y;
    } else {
      assert s[1..] == a[1..] + [c] + x && t[1..] == b[1..] + [c] + y;
      SplitAt(a[1..], b[1..], c, x, y);
      assert a == [a[0]] + a[1..] && b == [b[0]] + b[1..];
    }
  }

  /** A key, reduced to its five fields: everything between the first field and the domain. */
  function Fields(p1: string, n1: nat, p2: string, n2: nat, p: Protocol, v: IpVersion, domain: string): string {
    p1 + Dec(n1) + p2 + Dec(n2) + "|protocol=" + ProtocolKey(p) + "|ip_version=" + VersionKey(v) + "|target=" + domain
  }

  lemma DropPrefix(p: string, x: string, y: string)
    requires p + x == p + y
    ensures x == y
  {
    assert (p + x)[|p|..] == x && (p + y)[|p|..] == y;
  }

  /** A delimiter-free field behind a common label and in front of a common label is determined. */
  lemma FieldDetermined(p: string, a: string, b: string, q: string, x: string, y: string)
    requires '|' !in a && '|' !in b && q != [] && q[0] == '|'
    requires p + a + q + x == p + b + q + y
    ensures a == b && x == y
  {
    assert p + a + q + x == p + (a + q + x) && p + b + q + y == p + (b + q + y);
    DropPrefix(p, a + q + x, b + q + y);
    assert q == ['|'] + q[1..];
    assert a + q + x == a + ['|'] + (q[1..] + x) && b + q + y == b + ['|'] + (q[1..] + y);
    SplitAt(a, b, '|', q[1..] + x, q[1..] + y);
    DropPrefix(q[1..], x, y);
  }

  /** Five delimiter-free fields behind fixed labels, then free text: all six parts are determined. */
  lemma SixGrouped(p1: string, a1: string, p2: string, a2: string, p3: string, a3: string, p4: string, a4: string,
                   p5: string, d: string)
    ensures p1 + a1 + p2 + a2 + p3 + a3 + p4 + a4 + p5 + d
            == p1 + a1 + p2 + ([] + a2 + p3 + ([] + a3 + p4 + ([] + a4 + p5 + d)))
  {
  }

  lemma SixParts(p1: string, a1: string, b1: string, p2: string, a2: string, b2: string,
                 p3: string, a3: string, b3: string, p4: string, a4: string, b4: string,
                 p5: string, d: string, e: string)
    requires '|' !in a1 && '|' !in b1 && '|' !in a2 && '|' !in b2
    requires '|' !in a3 && '|' !in b3 && '|' !in a4 && '|' !in b4
    requires p2 != [] && p2[0] == '|' && p3 != [] && p3[0] == '|'
    requires p4 != [] && p4[0] == '|' && p5 != [] && p5[0] == '|'
    requires p1 + a1 + p2 + a2 + p3 + a3 + p4 + a4 + p5 + d == p1 + b1 + p2 + b2 + p3 + b3 + p4 + b4 + p5 + e
    ensures a1 == b1 && a2 == b2 && a3 == b3 && a4 == b4 && d == e
  {
    var x3, y3 := [] + a4 + p5 + d, [] + b4 + p5 + e;
    var x2, y2 := [] + a3 + p4 + x3, [] + b3 + p4 + y3;
    var x1, y1 := [] + a2 + p3 + x2, [] + b2 + p3 + y2;
    SixGrouped(p1, a1, p2, a2, p3, a3, p4, a4, p5, d);
    SixGrouped(p1, b1, p2, b2, p3, b3, p4, b4, p5, e);
    FieldDetermined(p1, a1, b1, p2, x1, y1);
    FieldDetermined([], a2, b2, p3, x2, y2);
    FieldDetermined([], a3, b3, p4, x3, y3);
    FieldDetermined([], a4, b4, p5, d, e);
  }

  lemma FieldsInjective(p1: string, p2: string, m1: nat, m2: nat, n1: nat, n2: nat,
                        p: Protocol, q: Protocol, v: IpVersion, w: IpVersion, d: string, e: string)
    requires p2 != [] && p2[0] == '|'
    requires Fields(p1, m1, p2, m2, p, v, d) == Fields(p1, n1, p2, n2, q, w, e)
    ensures m1 == n1 && m2 == n2 && p == q && v == w && d == e
  {
    SixParts(p1, Dec(m1), Dec(n1), p2, Dec(m2), Dec(n2), "|protocol=", ProtocolKey(p), ProtocolKey(q),
             "|ip_version=", VersionKey(v), VersionKey(w), "|target=", d, e);
    DecInjective(m1, n1);
    DecInjective(m2, n2);
    ProtocolKeyInjective(p, q);
    VersionKeyInjective(v, w);
  }

  lemma ProtocolKeyInjective(p: Protocol, q: Protocol)
    requires ProtocolKey(p) == ProtocolKey(q)
    ensures p == q
  {
    assert ProtocolKey(p)[0] == ProtocolKey(q)[0];
  }

  lemma VersionKeyInjective(v: IpVersion, w: IpVersion)
    requires VersionKey(v) == VersionKey(w)
    ensures v == w
  {
    if v != Both && w != Both {
      assert VersionKey(v)[3] == VersionKey(w)[3];
    } else {
      assert VersionKey(v)[0] == VersionKey(w)[0];
    }
  }

  /** What a rule key stands for. */
  predicate SameBusinessRule(a: NftCell, b: NftCell)
    requires Cacheable(a) && Cacheable(b)
  {
    && a.Single? == b.Single?
    && (a.Single? ==> a.sport == b.sport && a.dport == b.dport)
    && (a.Range? ==> a.portStart == b.portStart && a.portEnd == b.portEnd)
    && a.protocol == b.protocol
    && a.ipVersion == b.ipVersion
    && SameDomain(a.domain.text, b.domain.text)
  }

  lemma KeyIsFields(c: NftCell)
    requires Cacheable(c)
    ensures var d := NormalizeDomain(c.domain.text);
            RuleKey(c).value ==
            if c.Single? then Fields("single|sport=", c.sport, "|dport=", c.dport, c.protocol, c.ipVersion, d)
            else Fields("range|port_start=", c.portStart, "|port_end=", c.portEnd, c.protocol, c.ipVersion, d)
  {
  }

  /** Keys are injective as strings, whatever characters the domain holds: a key is shared exactly by
      the rules that agree on kind, ports, protocol, IP version and normalised domain. */
  lemma KeysEqualIff(a: NftCell, b: NftCell)
    requires Cacheable(a) && Cacheable(b)
    ensures RuleKey(a) == RuleKey(b) <==> SameBusinessRule(a, b)
  {
    KeyIsFields(a);
    KeyIsFields(b);
    if RuleKey(a) == RuleKey(b) {
      assert RuleKey(a).value[0] == RuleKey(b).value[0];
      var d, e := NormalizeDomain(a.domain.text), NormalizeDomain(b.domain.text);
      if a.Single? {
        assert "single|sport="[0] == 's' && "range|port_start="[0] == 'r';
        assert b.Single?;
        FieldsInjective("single|sport=", "|dport=", a.sport, a.dport, b.sport, b.dport,
                        a.protocol, b.protocol, a.ipVersion, b.ipVersion, d, e);
      } else {
        assert "single|sport="[0] == 's' && "range|port_start="[0] == 'r';
        assert b.Range?;
        FieldsInjective("range|port_start=", "|port_end=", a.portStart, a.portEnd, b.portStart, b.portEnd,
                        a.protocol, b.protocol, a.ipVersion, b.ipVersion, d, e);
      }
    }
  }

  /** The cache stores nothing for rules whose target is already an address, nor for redirects and drops. */
  lemma KeyExactlyWhenCacheable(c: NftCell)
    ensures RuleKey(c).Some? <==> Cacheable(c)
    ensures forall id :: IdentityForRule(id, c).Some? <==> Cacheable(c)
  {
  }
}
