/** The event loop: decode, name both ends, and feed the aggregator
    (pkg/adapters/ebpf/reader.go). */
module Reader {
  import opened Wrappers
  import opened Words
  import opened Text
  import opened Cache
  import opened FlowTable
  import FlowKey
  import Informer
  import Stats
  import Wire

  // ----- Resolution. Each lookup is its own lock section, so each may see its own cache. -----

  function NameFrom(atPod: Identities, atService: Identities, ip: string): string {
    match Get(atPod.pods, ip)
    case Some(p) => "pod:" + p.namespace + "/" + p.name
    case None =>
      match Get(atService.services, ip)
      case Some(s) => "svc:" + s.namespace + "/" + s.name
      case None => ip
  }

  function ZoneFrom(atPod: Identities, atNode: Identities, ip: string): string {
    match Get(atPod.pods, ip)
    case None => ""
    case Some(p) =>
      if p.node == "" then "" else
      match Get(atNode.nodes, p.node)
      case None => ""
      case Some(n) => if n.zone == Informer.UNKNOWN then "" else n.zone
  }

  /** The caches seen by the eight lookups for one event, in the order they happen. */
  type Views = vs: seq<Identities> | |vs| == 8 witness seq(8, _ => Informer.NO_IDENTITIES)

  function Printed(ip: u32): string { FlowKey.Dotted(Wire.Octets(ip)) }

  function Resolved(e: Wire.Event, vs: Views, now: string, kind: Kind): FlowEvent {
    FlowEvent(NameFrom(vs[0], vs[1], Printed(e.srcIP)), NameFrom(vs[2], vs[3], Printed(e.dstIP)),
              Wire.SwapUint16(e.dstPort), Wire.Classify(Printed(e.dstIP)),
              ZoneFrom(vs[4], vs[5], Printed(e.srcIP)), ZoneFrom(vs[6], vs[7], Printed(e.dstIP)), now, kind)
  }

  /** What one sample does to the aggregator. */
  datatype Effect = Ignored | Exec | Flow(event: FlowEvent)

  function Dispatch(raw: seq<Byte>, vs: Views, now: string): Effect {
    match Wire.Decode(raw)
    case None => Ignored
    case Some(e) =>
      if e.kind == Wire.EXEC then Exec
      else if e.kind == Wire.RECV then Ignored
      else if e.kind == Wire.CONNECT then Flow(Resolved(e, vs, now, Connect))
      else if e.kind == Wire.SEND then Flow(Resolved(e, vs, now, Send(e.bytes)))
      else Ignored
  }

  /** From the bytes the probe wrote to the flow recorded: both addresses and the port are
      read in network order, each end is named and zoned by its own address, and the class
      is that of the destination. */
  lemma SampleBecomesFlow(e: Wire.Event, src: seq<Byte>, dst: seq<Byte>, port: seq<Byte>,
                          garbage: seq<Byte>, rest: seq<Byte>, vs: Views, now: string)
    requires |e.comm| == Wire.COMM_LEN && |garbage| >= 8 && |src| == 4 && |dst| == 4 && |port| == 2
    requires e.srcIP == Wire.LE(src) && e.dstIP == Wire.LE(dst) && e.dstPort == Wire.LE(port)
    requires e.kind == 1 || e.kind == 2
    ensures var a := FlowKey.IPv4(src[0], src[1], src[2], src[3]);
            var b := FlowKey.IPv4(dst[0], dst[1], dst[2], dst[3]);
            var x := Dispatch(Wire.Sample(e, garbage) + rest, vs, now);
            && x.Flow?
            && x.event.src == NameFrom(vs[0], vs[1], FlowKey.Dotted(a))
            && x.event.dst == NameFrom(vs[2], vs[3], FlowKey.Dotted(b))
            && x.event.srcZone == ZoneFrom(vs[4], vs[5], FlowKey.Dotted(a))
            && x.event.dstZone == ZoneFrom(vs[6], vs[7], FlowKey.Dotted(b))
            && x.event.port == port[0] as int * 256 + port[1] as int
            && x.event.netClass == (if Wire.PrivateRange(b) then "internal" else "external")
            && x.event.now == now && x.event.kind == (if e.kind == 1 then Connect else Send(e.bytes))
  {
    Wire.SampleRoundTrip(e, garbage, rest);
    Wire.OctetsInMemoryOrder(src);
    Wire.OctetsInMemoryOrder(dst);
    Wire.PortBigEndian(port);
    Wire.ClassExact(e.dstIP);
    hide Wire.Decode;
    hide Wire.Sample;
    hide Wire.Classify;
    hide Wire.Octets;
    hide Wire.SwapUint16;
    hide Wire.PrivateRange;
    hide Wire.LE;
    hide NameFrom;
    hide ZoneFrom;
    hide FlowKey.Dotted;
  }

  /** The types of bpf/headers/events.h: an exec is counted, a receive and anything unknown
      leave no trace. */
  lemma SampleDispatch(e: Wire.Event, garbage: seq<Byte>, rest: seq<Byte>, vs: Views, now: string)
    requires |e.comm| == Wire.COMM_LEN && |garbage| >= 8
    ensures var x := Dispatch(Wire.Sample(e, garbage) + rest, vs, now);
            && (e.kind == 0 <==> x == Exec)
            && (e.kind == 1 || e.kind == 2 <==> x.Flow?)
            && (e.kind >= 3 <==> x == Ignored)
  {
    Wire.SampleRoundTrip(e, garbage, rest);
    hide Wire.Decode;
    hide Wire.Sample;
    hide Resolved;
  }

  /** The same read off the bytes: the type is the 41st, and fewer than 48 are no sample. */
  lemma RawDispatch(raw: seq<Byte>, vs: Views, now: string)
    ensures var x := Dispatch(raw, vs, now);
            && (|raw| >= 48 && raw[40] == 0 <==> x == Exec)
            && (|raw| >= 48 && (raw[40] == 1 || raw[40] == 2) <==> x.Flow?)
  {
    Wire.TypeByte(raw);
    hide Wire.Decode;
    hide Resolved;
  }

  datatype Counters = Counters(table: Table, execs: u64)

  function Feed(c: Counters, x: Effect): Counters {
    match x
    case Ignored => c
    case Exec => c.(execs := Add64(c.execs, 1))
    case Flow(e) => c.(table := Apply(c.table, e))
  }

  /** What the informers deliver before each of the eight lookups for one event. */
  type Deliveries = ds: seq<seq<Informer.Event>> | |ds| == 8 witness seq(8, _ => [])

  function After(v: Identities, ds: seq<seq<Informer.Event>>): Identities
    decreases |ds|
  {
    if ds == [] then v else Informer.HandleAll(After(v, Front(ds)), Last(ds))
  }

  /** The caches the lookups then see. */
  function Seen(v: Identities, ds: Deliveries): Views { seq(8, i requires 0 <= i < 8 => After(v, ds[..i + 1])) }

  /** A sample, the clock reading that RecordTCP or RecordBytes takes for it, and what is
      delivered since the sample before it. */
  datatype Arrival = Arrival(raw: seq<Byte>, now: string, deliveries: Deliveries)

  /** Samples that are looked up at all. */
  predicate LookedUp(raw: seq<Byte>) {
    Wire.Decode(raw).Some? && Wire.Decode(raw).value.kind !in {Wire.EXEC, Wire.RECV}
  }

  datatype World = World(counters: Counters, cache: Identities)

  function Arrive(w: World, x: Arrival): World {
    World(Feed(w.counters, Dispatch(x.raw, Seen(w.cache, x.deliveries), x.now)),
          if LookedUp(x.raw) then After(w.cache, x.deliveries) else w.cache)
  }

  function ArriveAll(w: World, xs: seq<Arrival>): World
    decreases |xs|
  {
    if xs == [] then w else Arrive(ArriveAll(w, Front(xs)), Last(xs))
  }

  /** All eight lookups see the same cache. */
  function Steady(v: Identities): Views { seq(8, _ => v) }

  // ----- The code -----

  /** The informers' deliveries between two lookups. */
  method Receive(cache: Store, es: seq<Informer.Event>)
    modifies cache
    ensures cache.View() == Informer.HandleAll(old(cache.View()), es)
  {
    hide Informer.Handle;
    for i := 0 to |es|
      invariant cache.View() == Informer.HandleAll(old(cache.View()), es[..i])
    {
      Informer.Deliver(cache, es[i]);
      assert Front(es[..i + 1]) == es[..i] && Last(es[..i + 1]) == es[i];
    }
    assert es[..|es|] == es;
  }

  method ResolveName(cache: Store, ip: string, first: seq<Informer.Event>, second: seq<Informer.Event>) returns (name: string)
    modifies cache
    ensures var atPod := Informer.HandleAll(old(cache.View()), first);
            var atService := Informer.HandleAll(atPod, second);
            name == NameFrom(atPod, atService, ip) && cache.View() == atService
  {
    hide Informer.HandleAll;
    Receive(cache, first);
    var p := cache.LookupPod(ip);
    Receive(cache, second);
    if p.Some? { return "pod:" + p.value.namespace + "/" + p.value.name; }
    var s := cache.LookupService(ip);
    if s.Some? { return "svc:" + s.value.namespace + "/" + s.value.name; }
    return ip;
  }

  method ResolveZone(cache: Store, ip: string, first: seq<Informer.Event>, second: seq<Informer.Event>) returns (zone: string)
    modifies cache
    ensures var atPod := Informer.HandleAll(old(cache.View()), first);
            var atNode := Informer.HandleAll(atPod, second);
            zone == ZoneFrom(atPod, atNode, ip) && cache.View() == atNode
  {
    hide Informer.HandleAll;
    Receive(cache, first);
    var p := cache.LookupPod(ip);
    Receive(cache, second);
    if p.None? || p.value.node == "" { return ""; }
    var n := cache.LookupNode(p.value.node);
    if n.None? || n.value.zone == Informer.UNKNOWN { return ""; }
    return n.value.zone;
  }

  lemma SeenInOrder(v: Identities, ds: Deliveries)
    ensures Seen(v, ds)[0] == Informer.HandleAll(v, ds[0])
    ensures forall i :: 0 <= i < 7 ==> Seen(v, ds)[i + 1] == Informer.HandleAll(Seen(v, ds)[i], ds[i + 1])
    ensures Seen(v, ds)[7] == After(v, ds)
  {
    hide Informer.HandleAll;
    assert ds[..8] == ds && ds[..0 + 1] == ds[..1] && Front(ds[..1]) == [] && Last(ds[..1]) == ds[0];
    assert After(v, []) == v;
    forall i | 0 <= i < 7 ensures Seen(v, ds)[i + 1] == Informer.HandleAll(Seen(v, ds)[i], ds[i + 1]) {
      assert Front(ds[..i + 2]) == ds[..i + 1] && Last(ds[..i + 2]) == ds[i + 1];
    }
  }

  /** How the ring buffer stops delivering: closed by the stop event, or failing. */
  datatype End = Closed | Failed(reason: string)

  /** The four names and zones of one event, with what is delivered on the way. */
  method Resolve(e: Wire.Event, cache: Store, ds: Deliveries) returns (src: string, dst: string, srcZone: string, dstZone: string)
    modifies cache
    ensures var vs := Seen(old(cache.View()), ds);
            && cache.View() == vs[7] == After(old(cache.View()), ds)
            && src == NameFrom(vs[0], vs[1], Printed(e.srcIP)) && dst == NameFrom(vs[2], vs[3], Printed(e.dstIP))
            && srcZone == ZoneFrom(vs[4], vs[5], Printed(e.srcIP)) && dstZone == ZoneFrom(vs[6], vs[7], Printed(e.dstIP))
  {
    SeenInOrder(cache.View(), ds);
    hide Seen;
    hide After;
    hide Informer.HandleAll;
    hide NameFrom;
    hide ZoneFrom;
    hide Printed;
    src := ResolveName(cache, Printed(e.srcIP), ds[0], ds[1]);
    dst := ResolveName(cache, Printed(e.dstIP), ds[2], ds[3]);
    srcZone := ResolveZone(cache, Printed(e.srcIP), ds[4], ds[5]);
    dstZone := ResolveZone(cache, Printed(e.dstIP), ds[6], ds[7]);
  }

  /** EXEC samples, by their type byte. */
  function ExecArrivals(xs: seq<Arrival>): nat
    decreases |xs|
  {
    if xs == [] then 0
    else ExecArrivals(Front(xs)) + if |Last(xs).raw| >= 48 && Last(xs).raw[40] == 0 then 1 else 0
  }

  method HandleSample(x: Arrival, cache: Store, stats: Stats.Aggregator)
    requires stats.Valid()
    modifies cache, stats, stats.conns.Values
    ensures stats.Valid() && fresh(stats.conns.Values - old(stats.conns.Values))
    ensures stats.lastJSON == old(stats.lastJSON)
    ensures stats.execCnt == if |x.raw| >= 48 && x.raw[40] == 0 then Add64(old(stats.execCnt), 1) else old(stats.execCnt)
    ensures World(Counters(stats.Rows(), stats.execCnt), cache.View())
         == Arrive(old(World(Counters(stats.Rows(), stats.execCnt), cache.View())), x)
  {
    hide NameFrom;
    hide ZoneFrom;
    hide Seen;
    hide After;
    hide Apply;
    hide Wire.Decode;
    hide Wire.SwapUint16;
    hide Wire.Classify;
    hide Printed;
    Wire.TypeByte(x.raw);
    var d := Wire.Decode(x.raw);
    if d.None? { return; }
    var e := d.value;
    if e.kind == Wire.EXEC {
      stats.RecordExec();
      assert stats.Rows() == old(stats.Rows());
      return;
    }
    if e.kind == Wire.RECV { return; }
    var srcName, dstName, srcZone, dstZone := Resolve(e, cache, x.deliveries);
    var netClass := Wire.Classify(Printed(e.dstIP));
    var dstPort := Wire.SwapUint16(e.dstPort);
    assert stats.Rows() == old(stats.Rows());
    if e.kind == Wire.CONNECT {
      stats.RecordTCP(srcName, dstName, dstPort, netClass, srcZone, dstZone, x.now);
    } else if e.kind == Wire.SEND {
      stats.RecordBytes(srcName, dstName, dstPort, netClass, srcZone, dstZone, e.bytes, x.now);
    }
  }

  /** The loop, run to its end. */
  method ReadEvents(xs: seq<Arrival>, end: End, cache: Store, stats: Stats.Aggregator) returns (r: Result<(), string>)
    requires stats.Valid()
    modifies cache, stats, stats.conns.Values
    ensures stats.Valid()
    ensures r == if end.Closed? then Ok(()) else Err("read ringbuf: " + end.reason)
    ensures stats.execCnt == (old(stats.execCnt) + ExecArrivals(xs)) % U64
    ensures World(Counters(stats.Rows(), stats.execCnt), cache.View())
         == ArriveAll(old(World(Counters(stats.Rows(), stats.execCnt), cache.View())), xs)
  {
    hide Arrive;
    var i := 0;
    assert stats.execCnt == (stats.execCnt + ExecArrivals(xs[..0])) % U64;
    while i < |xs|
      invariant i <= |xs| && stats.execCnt == (old(stats.execCnt) + ExecArrivals(xs[..i])) % U64
      invariant stats.Valid() && fresh(stats.conns.Values - old(stats.conns.Values))
      invariant World(Counters(stats.Rows(), stats.execCnt), cache.View())
             == ArriveAll(old(World(Counters(stats.Rows(), stats.execCnt), cache.View())), xs[..i])
    {
      AddMod(old(stats.execCnt) + ExecArrivals(xs[..i]), 1);
      HandleSample(xs[i], cache, stats);
      assert Front(xs[..i + 1]) == xs[..i] && Last(xs[..i + 1]) == xs[i];
      i := i + 1;
    }
    assert xs[..|xs|] == xs;
    match end
    case Closed => return Ok(());
    case Failed(reason) => return Err("read ringbuf: " + reason);
  }
}
