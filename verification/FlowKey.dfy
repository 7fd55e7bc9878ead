/** Flow keys and the names they are made of
    (pkg/adapters/ebpf/stats.go, reader.go; the dashboard splits them again). */
module FlowKey {
  import opened Wrappers
  import opened Words
  import opened Text

  datatype IPv4 = IPv4(a: Byte, b: Byte, c: Byte, d: Byte)

  /** net.IP.String of an IPv4 address. */
  function Dotted(ip: IPv4): string {
    Dec(ip.a) + ['.'] + (Dec(ip.b) + ['.'] + (Dec(ip.c) + ['.'] + Dec(ip.d)))
  }

  datatype Endpoint = Pod(namespace: string, name: string) | Svc(namespace: string, name: string) | Raw(ip: IPv4)

  /** What a resolved endpoint is called. */
  function Name(e: Endpoint): string {
    match e
    case Pod(ns, name) => "pod:" + ns + "/" + name
    case Svc(ns, name) => "svc:" + ns + "/" + name
    case Raw(ip) => Dotted(ip)
  }

  /** fmt.Sprintf("%s -> %s:%d", src, dst, port) */
  function Key(src: string, dst: string, port: u16): string {
    src + " -> " + dst + ":" + Dec(port)
  }

  /** Object names in the API server follow DNS label syntax (section 2.3.1 of RFC 1035,
      section 2.1 of RFC 1123); this is all of it that matters here. */
  predicate DnsName(s: string) { ' ' !in s && '/' !in s && ':' !in s }

  predicate Nameable(e: Endpoint) { e.Raw? || (DnsName(e.namespace) && DnsName(e.name)) }

  // ----- Reading names back -----

  function ReadOctet(s: string): Option<Byte> {
    if s != [] && AllDigits(s) && (s[0] == '0' ==> |s| == 1) && Undec(s) < 256 then Some(Undec(s)) else None
  }

  /** net.ParseIP on a text without a colon. */
  function ParseIPv4(s: string): Option<IPv4> {
    var f := Split(s, '.');
    if |f| != 4 then None else
    match (ReadOctet(f[0]), ReadOctet(f[1]), ReadOctet(f[2]), ReadOctet(f[3]))
    case (Some(a), Some(b), Some(c), Some(d)) => Some(IPv4(a, b, c, d))
    case _ => None
  }

  function ParsePair(s: string): Option<(string, string)> {
    var f := Split(s, '/');
    if |f| == 2 then Some((f[0], f[1])) else None
  }

  function ParseName(s: string): Option<Endpoint> {
    if |s| >= 4 && s[..4] == "pod:" then
      match ParsePair(s[4..]) case None => None case Some(p) => Some(Pod(p.0, p.1))
    else if |s| >= 4 && s[..4] == "svc:" then
      match ParsePair(s[4..]) case None => None case Some(p) => Some(Svc(p.0, p.1))
    else
      match ParseIPv4(s) case None => None case Some(ip) => Some(Raw(ip))
  }

  const ARROW := " -> "

  /** String.split(" -> ") of the dashboard. */
  function SplitArrow(s: string): seq<string>
    decreases |s|
  {
    var k := FindArrow(s);
    if k == |s| then [s] else [s[..k]] + SplitArrow(s[k + 4..])
  }

  /** Index of the first arrow, or the length if there is none. */
  function FindArrow(s: string): (k: nat)
    ensures k <= |s| && (k == |s| || (k + 4 <= |s| && s[k..k + 4] == ARROW))
  {
    if |s| >= 4 && s[..4] == ARROW then 0
    else if s == [] then 0
    else
      var k := FindArrow(s[1..]);
      assert k < |s[1..]| ==> s[k + 1..k + 5] == s[1..][k..k + 4];
      k + 1
  }

  /** The octets are printed in order, three dots between them. */
  lemma DottedOctets(ip: IPv4)
    ensures Split(Dotted(ip), '.') == [Dec(ip.a), Dec(ip.b), Dec(ip.c), Dec(ip.d)]
  {
    DecHasNo(ip.a, '.');
    DecHasNo(ip.b, '.');
    DecHasNo(ip.c, '.');
    DecHasNo(ip.d, '.');
    SplitDots(Dec(ip.a), Dec(ip.b), Dec(ip.c), Dec(ip.d));
  }

  lemma DecHasNo(n: nat, c: char)
    requires !IsDigit(c)
    ensures c !in Dec(n)
  {
  }

  lemma OctetParses(o: Byte)
    ensures ReadOctet(Dec(o)) == Some(o)
  {
    UndecDec(o);
  }

  lemma SplitDots(a: string, b: string, c: string, d: string)
    requires '.' !in a && '.' !in b && '.' !in c && '.' !in d
    ensures Split(a + ['.'] + (b + ['.'] + (c + ['.'] + d)), '.') == [a, b, c, d]
  {
    hide Split;
    SplitNoSep(d, '.');
    SplitFirst(c, '.', d);
    SplitFirst(b, '.', c + ['.'] + d);
    SplitFirst(a, '.', b + ['.'] + (c + ['.'] + d));
  }

  lemma DottedParses(ip: IPv4)
    ensures ParseIPv4(Dotted(ip)) == Some(ip)
  {
    hide Split;
    hide ReadOctet;
    DecHasNo(ip.a, '.');
    DecHasNo(ip.b, '.');
    DecHasNo(ip.c, '.');
    DecHasNo(ip.d, '.');
    SplitDots(Dec(ip.a), Dec(ip.b), Dec(ip.c), Dec(ip.d));
    OctetParses(ip.a);
    OctetParses(ip.b);
    OctetParses(ip.c);
    OctetParses(ip.d);
  }

  lemma PairParses(ns: string, name: string)
    requires DnsName(ns) && DnsName(name)
    ensures ParsePair(ns + "/" + name) == Some((ns, name))
  {
    SplitFirst(ns, '/', name);
    SplitNoSep(name, '/');
  }

  lemma DottedChars(ip: IPv4)
    ensures forall i :: 0 <= i < |Dotted(ip)| ==> IsDigit(Dotted(ip)[i]) || Dotted(ip)[i] == '.'
    ensures |Dotted(ip)| >= 4
  {
  }

  lemma PrefixedParses(prefix: string, ns: string, name: string)
    requires |prefix| == 4 && DnsName(ns) && DnsName(name)
    ensures (prefix + ns + "/" + name)[..4] == prefix
    ensures ParsePair((prefix + ns + "/" + name)[4..]) == Some((ns, name))
  {
    assert (prefix + ns + "/" + name)[4..] == ns + "/" + name;
    PairParses(ns, name);
  }

  lemma NameParses(e: Endpoint)
    requires Nameable(e)
    ensures ParseName(Name(e)) == Some(e)
    ensures ' ' !in Name(e)
  {
    hide ParsePair;
    hide ParseIPv4;
    hide Dotted;
    match e
    case Pod(ns, name) => PrefixedParses("pod:", ns, name);
    case Svc(ns, name) => PrefixedParses("svc:", ns, name);
    case Raw(ip) =>
      DottedChars(ip);
      DottedParses(ip);
      assert Name(e)[..4][0] == Name(e)[0];
  }

  lemma {:induction false} NoArrow(s: string)
    requires ' ' !in s
    ensures FindArrow(s) == |s| && SplitArrow(s) == [s]
  {
    if s != [] {
      assert |s| >= 4 ==> s[..4][0] == s[0] && s[0] in s;
      NoArrow(s[1..]);
    }
  }

  lemma {:induction false} FirstArrow(a: string, rest: string)
    requires ' ' !in a
    ensures FindArrow(a + ARROW + rest) == |a|
  {
    var s := a + ARROW + rest;
    if a == [] {
      assert s[..4] == ARROW;
    } else {
      assert s[0] == a[0] && a[0] in a;
      assert s[..4][0] == s[0];
      assert s[1..] == a[1..] + ARROW + rest;
      FirstArrow(a[1..], rest);
    }
  }

  lemma ArrowSplits(a: string, b: string)
    requires ' ' !in a && ' ' !in b
    ensures SplitArrow(a + ARROW + b) == [a, b]
  {
    var s := a + ARROW + b;
    FirstArrow(a, b);
    assert s[..|a|] == a && s[|a| + 4..] == b;
    NoArrow(b);
  }

  lemma KeyShape(src: string, dst: string, port: u16)
    ensures Key(src, dst, port) == src + ARROW + (dst + ":" + Dec(port))
  {
  }

  /** Splitting a key on its arrow gives back exactly its two sides. */
  lemma KeySplits(src: Endpoint, dst: Endpoint, port: u16)
    requires Nameable(src) && Nameable(dst)
    ensures var key := Key(Name(src), Name(dst), port);
            && key == Name(src) + " -> " + Name(dst) + ":" + Dec(port)
            && SplitArrow(key) == [Name(src), Name(dst) + ":" + Dec(port)]
  {
    hide Name;
    NameParses(src);
    NameParses(dst);
    KeyShape(Name(src), Name(dst), port);
    ArrowSplits(Name(src), Name(dst) + ":" + Dec(port));
  }

  lemma PortSuffix(a: string, m: nat, b: string, n: nat)
    requires a + ":" + Dec(m) == b + ":" + Dec(n)
    ensures a == b && m == n
  {
    var s := a + ":" + Dec(m);
    SplitAtSep(a, ':', Dec(m));
    SplitAtSep(b, ':', Dec(n));
    SplitNoSep(Dec(m), ':');
    SplitNoSep(Dec(n), ':');
    assert Last(Split(s, ':')) == Dec(m) == Dec(n);
    DecInjective(m, n);
    assert s[..|a|] == a && s[..|b|] == b;
  }

  /** Distinct endpoints and ports never share a flow key. */
  lemma KeyInjective(s1: Endpoint, d1: Endpoint, p1: u16, s2: Endpoint, d2: Endpoint, p2: u16)
    requires Nameable(s1) && Nameable(d1) && Nameable(s2) && Nameable(d2)
    ensures Key(Name(s1), Name(d1), p1) == Key(Name(s2), Name(d2), p2) ==> s1 == s2 && d1 == d2 && p1 == p2
  {
    hide Name;
    hide Key;
    hide ParseName;
    if Key(Name(s1), Name(d1), p1) == Key(Name(s2), Name(d2), p2) {
      KeySplits(s1, d1, p1);
      KeySplits(s2, d2, p2);
      var parts := SplitArrow(Key(Name(s1), Name(d1), p1));
      assert parts[0] == Name(s1) == Name(s2);
      assert parts[1] == Name(d1) + ":" + Dec(p1) == Name(d2) + ":" + Dec(p2);
      PortSuffix(Name(d1), p1, Name(d2), p2);
      NameParses(s1);
      NameParses(s2);
      NameParses(d1);
      NameParses(d2);
    }
  }
}
