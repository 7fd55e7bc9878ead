/** The ring-buffer sample: the C struct the probes fill, and the packed
    little-endian decode of it (bpf/headers/events.h, pkg/adapters/ebpf/reader.go). */
module Wire {
  import opened Wrappers
  import opened Words
  import FlowKey

  datatype Event = Event(pid: u32, comm: seq<Byte>, srcIP: u32, dstIP: u32, srcPort: u16, dstPort: u16, bytes: u64, kind: Byte)

  const EXEC: Byte := 0
  const CONNECT: Byte := 1
  const SEND: Byte := 2
  const RECV: Byte := 3

  const COMM_LEN := 16
  const SAMPLE_LEN := 48

  // ----- Little-endian words -----

  function LE(bs: seq<Byte>): nat { if bs == [] then 0 else bs[0] + 256 * LE(bs[1..]) }

  function ToLE(n: nat, k: nat): (bs: seq<Byte>)
    ensures |bs| == k
  {
    if k == 0 then [] else [n % 256] + ToLE(n / 256, k - 1)
  }

  lemma {:induction false} LEBound(bs: seq<Byte>)
    ensures LE(bs) < Pow(256, |bs|)
  {
    if bs != [] { LEBound(bs[1..]); }
  }

  lemma {:induction false} LERoundTrip(n: nat, k: nat)
    requires n < Pow(256, k)
    ensures LE(ToLE(n, k)) == n
  {
    if k > 0 {
      LERoundTrip(n / 256, k - 1);
      assert ToLE(n, k)[1..] == ToLE(n / 256, k - 1);
    }
  }

  lemma Widths()
    ensures Pow(256, 2) == U16 && Pow(256, 4) == U32 && Pow(256, 8) == U64
  {
    assert Pow(256, 4) == 256 * (256 * Pow(256, 2));
    assert Pow(256, 6) == 256 * (256 * Pow(256, 4));
  }

  // ----- The decoder -----

  /** encoding/binary reads the fields back to back; a short sample is an error. */
  function Decode(raw: seq<Byte>): Option<Event> {
    if |raw| < SAMPLE_LEN then None else
    Widths();
    LEBound(raw[0..4]);
    LEBound(raw[20..24]);
    LEBound(raw[24..28]);
    LEBound(raw[28..30]);
    LEBound(raw[30..32]);
    LEBound(raw[32..40]);
    Some(Event(LE(raw[0..4]), raw[4..20], LE(raw[20..24]), LE(raw[24..28]),
               LE(raw[28..30]), LE(raw[30..32]), LE(raw[32..40]), raw[40]))
  }

  lemma TypeByte(raw: seq<Byte>)
    ensures Decode(raw).Some? <==> |raw| >= 48
    ensures |raw| >= 48 ==> Decode(raw).value.kind == raw[40]
  {
    hide LE;
  }

  // ----- The C side -----

  type Align = n: nat | 1 <= n <= 8 witness 1

  /** One member of a struct: its alignment and its bytes. */
  datatype Field = Field(align: Align, data: seq<Byte>)

  function Fields(e: Event): seq<Field> {
    [Field(4, ToLE(e.pid, 4)), Field(1, e.comm), Field(4, ToLE(e.srcIP, 4)), Field(4, ToLE(e.dstIP, 4)),
     Field(2, ToLE(e.srcPort, 2)), Field(2, ToLE(e.dstPort, 2)), Field(8, ToLE(e.bytes, 8)), Field(1, [e.kind])]
  }

  function Gap(offset: nat, align: Align): (g: nat)
    ensures g < 8
  {
    if offset % align == 0 then 0 else align - offset % align
  }

  /** C layout: every member at its alignment, gaps holding whatever was there. */
  function Laid(out: seq<Byte>, fs: seq<Field>, garbage: seq<Byte>): seq<Byte>
    requires |garbage| >= 8
    decreases |fs|
  {
    if fs == [] then out else
    Laid(out + garbage[..Gap(|out|, fs[0].align)] + fs[0].data, fs[1..], garbage)
  }

  /** The submitted sample: the struct padded to the alignment of its widest member. */
  function Sample(e: Event, garbage: seq<Byte>): seq<Byte>
    requires |garbage| >= 8
  {
    var s := Laid([], Fields(e), garbage);
    s + garbage[..Gap(|s|, 8)]
  }

  lemma LaidStep(out: seq<Byte>, f: Field, fs: seq<Field>, garbage: seq<Byte>)
    requires |garbage| >= 8
    requires Gap(|out|, f.align) == 0
    ensures Laid(out, [f] + fs, garbage) == Laid(out + f.data, fs, garbage)
  {
    hide Laid;
    hide Gap;
    var gs := [f] + fs;
    LaidUnfold(out, gs, garbage);
    assert gs[0] == f && gs[1..] == fs;
    assert out + garbage[..0] + f.data == out + f.data;
  }

  lemma LaidUnfold(out: seq<Byte>, fs: seq<Field>, garbage: seq<Byte>)
    requires |garbage| >= 8 && fs != []
    ensures Laid(out, fs, garbage)
         == Laid(out + garbage[..Gap(|out|, fs[0].align)] + fs[0].data, fs[1..], garbage)
  {
    hide Gap;
  }

  lemma Gaps()
    ensures Gap(0, 4) == 0 && Gap(4, 1) == 0 && Gap(20, 4) == 0 && Gap(24, 4) == 0
    ensures Gap(28, 2) == 0 && Gap(30, 2) == 0 && Gap(32, 8) == 0 && Gap(40, 1) == 0 && Gap(41, 8) == 7
  {
  }

  /** Every gap between members is empty, so the struct is its members back to back. */
  lemma LaidPacked(e: Event, garbage: seq<Byte>)
    requires |garbage| >= 8 && |e.comm| == COMM_LEN
    ensures Laid([], Fields(e), garbage)
         == ToLE(e.pid, 4) + e.comm + ToLE(e.srcIP, 4) + ToLE(e.dstIP, 4) + ToLE(e.srcPort, 2)
            + ToLE(e.dstPort, 2) + ToLE(e.bytes, 8) + [e.kind]
  {
    Gaps();
    hide Gap;
    hide Laid;
    hide ToLE;
    var f := Fields(e);
    var s0 := ToLE(e.pid, 4);
    var s1 := s0 + e.comm;
    var s2 := s1 + ToLE(e.srcIP, 4);
    var s3 := s2 + ToLE(e.dstIP, 4);
    var s4 := s3 + ToLE(e.srcPort, 2);
    var s5 := s4 + ToLE(e.dstPort, 2);
    var s6 := s5 + ToLE(e.bytes, 8);
    assert f == [f[0]] + f[1..] && f[1..] == [f[1]] + f[2..] && f[2..] == [f[2]] + f[3..] && f[3..] == [f[3]] + f[4..];
    assert f[4..] == [f[4]] + f[5..] && f[5..] == [f[5]] + f[6..] && f[6..] == [f[6]] + f[7..] && f[7..] == [f[7]] + [];
    LaidStep([], f[0], f[1..], garbage);
    assert [] + s0 == s0;
    LaidStep(s0, f[1], f[2..], garbage);
    LaidStep(s1, f[2], f[3..], garbage);
    LaidStep(s2, f[3], f[4..], garbage);
    LaidStep(s3, f[4], f[5..], garbage);
    LaidStep(s4, f[5], f[6..], garbage);
    LaidStep(s5, f[6], f[7..], garbage);
    LaidStep(s6, f[7], [], garbage);
    LaidEnd(s6 + [e.kind], garbage);
  }

  lemma LaidEnd(out: seq<Byte>, garbage: seq<Byte>)
    requires |garbage| >= 8
    ensures Laid(out, [], garbage) == out
  {
  }

  lemma SamplePacked(e: Event, garbage: seq<Byte>)
    requires |garbage| >= 8 && |e.comm| == COMM_LEN
    ensures Sample(e, garbage)
         == ToLE(e.pid, 4) + e.comm + ToLE(e.srcIP, 4) + ToLE(e.dstIP, 4) + ToLE(e.srcPort, 2)
            + ToLE(e.dstPort, 2) + ToLE(e.bytes, 8) + [e.kind] + garbage[..7]
  {
    Gaps();
    LaidPacked(e, garbage);
    hide Gap;
    hide Laid;
    hide Fields;
    hide ToLE;
  }

  lemma Slices(a: seq<Byte>, b: seq<Byte>, c: seq<Byte>, d: seq<Byte>, e: seq<Byte>, f: seq<Byte>, g: seq<Byte>,
               k: Byte, rest: seq<Byte>)
    requires |a| == 4 && |b| == 16 && |c| == 4 && |d| == 4 && |e| == 2 && |f| == 2 && |g| == 8
    ensures var raw := a + b + c + d + e + f + g + [k] + rest;
            && raw[0..4] == a && raw[4..20] == b && raw[20..24] == c && raw[24..28] == d
            && raw[28..30] == e && raw[30..32] == f && raw[32..40] == g && raw[40] == k
  {
  }

  lemma SlicesDecode(e: Event, raw: seq<Byte>)
    requires |raw| >= SAMPLE_LEN && |e.comm| == COMM_LEN
    requires raw[0..4] == ToLE(e.pid, 4) && raw[4..20] == e.comm
    requires raw[20..24] == ToLE(e.srcIP, 4) && raw[24..28] == ToLE(e.dstIP, 4)
    requires raw[28..30] == ToLE(e.srcPort, 2) && raw[30..32] == ToLE(e.dstPort, 2)
    requires raw[32..40] == ToLE(e.bytes, 8) && raw[40] == e.kind
    ensures Decode(raw) == Some(e)
  {
    Widths();
    LERoundTrip(e.pid, 4);
    LERoundTrip(e.srcIP, 4);
    LERoundTrip(e.dstIP, 4);
    LERoundTrip(e.srcPort, 2);
    LERoundTrip(e.dstPort, 2);
    LERoundTrip(e.bytes, 8);
    hide LE;
    hide ToLE;
    hide Pow;
  }

  /** Main result: decoding inverts the struct, whatever the padding and whatever follows. */
  lemma SampleRoundTrip(e: Event, garbage: seq<Byte>, rest: seq<Byte>)
    requires |garbage| >= 8 && |e.comm| == COMM_LEN
    ensures |Sample(e, garbage)| == SAMPLE_LEN
    ensures Decode(Sample(e, garbage) + rest) == Some(e)
  {
    hide ToLE;
    hide Decode;
    SamplePacked(e, garbage);
    hide Sample;
    var packed := ToLE(e.pid, 4) + e.comm + ToLE(e.srcIP, 4) + ToLE(e.dstIP, 4) + ToLE(e.srcPort, 2)
                  + ToLE(e.dstPort, 2) + ToLE(e.bytes, 8) + [e.kind];
    Slices(ToLE(e.pid, 4), e.comm, ToLE(e.srcIP, 4), ToLE(e.dstIP, 4), ToLE(e.srcPort, 2),
           ToLE(e.dstPort, 2), ToLE(e.bytes, 8), e.kind, garbage[..7] + rest);
    assert Sample(e, garbage) + rest == packed + (garbage[..7] + rest);
    SlicesDecode(e, Sample(e, garbage) + rest);
  }

  // ----- Addresses and ports are in network order -----

  /** byte(ip), byte(ip>>8), byte(ip>>16), byte(ip>>24) */
  function Octets(ip: u32): FlowKey.IPv4 {
    FlowKey.IPv4(ip % 256, ip / 256 % 256, ip / 65536 % 256, ip / 16777216 % 256)
  }

  /** (v >> 8) | (v << 8) in sixteen bits. */
  function SwapUint16(v: u16): u16 { v / 256 + v % 256 * 256 }

  lemma LE4(bs: seq<Byte>)
    requires |bs| == 4
    ensures LE(bs) == bs[0] + 256 * bs[1] + 65536 * bs[2] + 16777216 * bs[3] < U32
  {
    assert LE(bs[3..]) == bs[3];
    assert LE(bs[2..]) == bs[2] + 256 * LE(bs[3..]) by { assert bs[2..][1..] == bs[3..]; }
    assert LE(bs[1..]) == bs[1] + 256 * LE(bs[2..]) by { assert bs[1..][1..] == bs[2..]; }
  }

  lemma LE2(bs: seq<Byte>)
    requires |bs| == 2
    ensures LE(bs) == bs[0] + 256 * bs[1] < U16
  {
    assert LE(bs[1..]) == bs[1];
  }

  /** The octets printed are the address bytes as they lie in memory. */
  lemma OctetsInMemoryOrder(bs: seq<Byte>)
    requires |bs| == 4
    ensures LE(bs) < U32 && Octets(LE(bs)) == FlowKey.IPv4(bs[0], bs[1], bs[2], bs[3])
  {
    LE4(bs);
    OctetsOf(bs[0], bs[1], bs[2], bs[3]);
  }

  lemma OctetsOf(a: Byte, b: Byte, c: Byte, d: Byte)
    requires a as int + 256 * b as int + 65536 * c as int + 16777216 * d as int < U32
    ensures Octets(a as int + 256 * b as int + 65536 * c as int + 16777216 * d as int) == FlowKey.IPv4(a, b, c, d)
  {
    var high := c + 256 * d;
    var upper := b + 256 * high;
    LowOctet(a, upper);
    LowOctet(b, high);
    LowOctet(c, d);
    Shifts(a + 256 * upper);
    assert a as int + 256 * b as int + 65536 * c as int + 16777216 * d as int == a + 256 * upper;
  }

  lemma LowOctet(o: Byte, rest: nat)
    ensures (o + 256 * rest) % 256 == o && (o + 256 * rest) / 256 == rest
  {
  }

  lemma Shifts(n: nat)
    ensures n / 65536 == n / 256 / 256 && n / 16777216 == n / 256 / 256 / 256
  {
  }

  /** The swapped port is the big-endian reading of its two bytes. */
  lemma PortBigEndian(bs: seq<Byte>)
    requires |bs| == 2
    ensures LE(bs) < U16 && SwapUint16(LE(bs)) == bs[0] as int * 256 + bs[1] as int
  {
    LE2(bs);
  }

  // ----- Internal and external -----

  datatype Block = Block(base: FlowKey.IPv4, prefix: nat)

  const PRIVATE: seq<Block> := [
    Block(FlowKey.IPv4(10, 0, 0, 0), 8),
    Block(FlowKey.IPv4(172, 16, 0, 0), 12),
    Block(FlowKey.IPv4(192, 168, 0, 0), 16),
    Block(FlowKey.IPv4(127, 0, 0, 0), 8)]

  /** An octet with only its first `keep` bits left. */
  function MaskOctet(o: Byte, keep: int): int {
    if keep >= 8 then o else if keep <= 0 then 0 else o / Pow(2, 8 - keep) * Pow(2, 8 - keep)
  }

  /** net.IPNet.Contains, octet by octet. */
  predicate Contains(b: Block, ip: FlowKey.IPv4) {
    && MaskOctet(ip.a, b.prefix) == MaskOctet(b.base.a, b.prefix)
    && MaskOctet(ip.b, b.prefix - 8) == MaskOctet(b.base.b, b.prefix - 8)
    && MaskOctet(ip.c, b.prefix - 16) == MaskOctet(b.base.c, b.prefix - 16)
    && MaskOctet(ip.d, b.prefix - 24) == MaskOctet(b.base.d, b.prefix - 24)
  }

  function Classify(ip: string): string {
    match FlowKey.ParseIPv4(ip)
    case None => "unknown"
    case Some(a) => if exists i :: 0 <= i < |PRIVATE| && Contains(PRIVATE[i], a) then "internal" else "external"
  }

  function Address(ip: FlowKey.IPv4): nat { ((ip.a * 256 + ip.b) * 256 + ip.c) * 256 + ip.d }

  predicate Between(lo: FlowKey.IPv4, ip: FlowKey.IPv4, hi: FlowKey.IPv4) {
    Address(lo) <= Address(ip) <= Address(hi)
  }

  /** Section 3 of RFC 1918 and the loopback block, as address ranges. */
  predicate PrivateRange(ip: FlowKey.IPv4) {
    || Between(FlowKey.IPv4(10, 0, 0, 0), ip, FlowKey.IPv4(10, 255, 255, 255))
    || Between(FlowKey.IPv4(172, 16, 0, 0), ip, FlowKey.IPv4(172, 31, 255, 255))
    || Between(FlowKey.IPv4(192, 168, 0, 0), ip, FlowKey.IPv4(192, 168, 255, 255))
    || Between(FlowKey.IPv4(127, 0, 0, 0), ip, FlowKey.IPv4(127, 255, 255, 255))
  }

  lemma ContainsIsRange(ip: FlowKey.IPv4)
    ensures Contains(PRIVATE[0], ip) <==> Between(FlowKey.IPv4(10, 0, 0, 0), ip, FlowKey.IPv4(10, 255, 255, 255))
    ensures Contains(PRIVATE[1], ip) <==> Between(FlowKey.IPv4(172, 16, 0, 0), ip, FlowKey.IPv4(172, 31, 255, 255))
    ensures Contains(PRIVATE[2], ip) <==> Between(FlowKey.IPv4(192, 168, 0, 0), ip, FlowKey.IPv4(192, 168, 255, 255))
    ensures Contains(PRIVATE[3], ip) <==> Between(FlowKey.IPv4(127, 0, 0, 0), ip, FlowKey.IPv4(127, 255, 255, 255))
  {
    assert Pow(2, 4) == 16;
  }

  /** A decoded address is internal exactly in the private ranges, and never unknown. */
  lemma ClassExact(ip: u32)
    ensures Classify(FlowKey.Dotted(Octets(ip))) == if PrivateRange(Octets(ip)) then "internal" else "external"
  {
    var a := Octets(ip);
    FlowKey.DottedParses(a);
    ContainsIsRange(a);
    assert |PRIVATE| == 4;
    if PrivateRange(a) {
      assert Contains(PRIVATE[0], a) || Contains(PRIVATE[1], a) || Contains(PRIVATE[2], a) || Contains(PRIVATE[3], a);
    }
  }
}
