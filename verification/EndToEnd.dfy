/** From a call in the kernel to the flow the aggregator records: the probes, the sample
    layout, the decoder and the dispatch taken together. */
module EndToEnd {
  import opened Wrappers
  import opened Words
  import opened FlowTable
  import opened Reader
  import FlowKey
  import Tracer
  import Wire

  /** Three addresses and ports of a socket as they lie in memory, in network order. */
  predicate LiesAs(ends: Tracer.Ends, src: seq<Byte>, dst: seq<Byte>, port: seq<Byte>) {
    && |src| == 4 && |dst| == 4 && |port| == 2
    && ends.srcIP == Wire.LE(src) && ends.dstIP == Wire.LE(dst) && ends.dstPort == Wire.LE(port)
  }

  /** The flow read from a sample is that of the socket: source and destination each named
      and zoned by its own address, port and class of the destination. */
  predicate FlowOfSocket(f: FlowEvent, src: seq<Byte>, dst: seq<Byte>, port: seq<Byte>, vs: Views)
    requires |src| == 4 && |dst| == 4 && |port| == 2
  {
    var a := FlowKey.IPv4(src[0], src[1], src[2], src[3]);
    var b := FlowKey.IPv4(dst[0], dst[1], dst[2], dst[3]);
    && f.src == NameFrom(vs[0], vs[1], FlowKey.Dotted(a)) && f.srcZone == ZoneFrom(vs[4], vs[5], FlowKey.Dotted(a))
    && f.dst == NameFrom(vs[2], vs[3], FlowKey.Dotted(b)) && f.dstZone == ZoneFrom(vs[6], vs[7], FlowKey.Dotted(b))
    && f.port == port[0] as int * 256 + port[1] as int
    && f.netClass == (if Wire.PrivateRange(b) then "internal" else "external")
  }

  lemma FilledFlow(x: Tracer.Context, e: Tracer.Event, src: seq<Byte>, dst: seq<Byte>, port: seq<Byte>,
                   garbage: seq<Byte>, rest: seq<Byte>, vs: Views, now: string)
    requires |x.comm| == 16 && |garbage| >= 8 && LiesAs(x.peek(e.sock), src, dst, port)
    requires e.kind == 1 || e.kind == 2
    ensures var r := Dispatch(Wire.Sample(Tracer.Filled(x, e), garbage) + rest, vs, now);
            && r.Flow? && FlowOfSocket(r.event, src, dst, port, vs)
            && r.event.kind == if e.kind == 1 then Connect else Send(e.bytes)
  {
    SampleBecomesFlow(Tracer.Filled(x, e), src, dst, port, garbage, rest, vs, now);
    hide Dispatch;
    hide Wire.Sample;
    hide Wire.LE;
    hide Wire.PrivateRange;
    hide FlowKey.Dotted;
    hide NameFrom;
    hide ZoneFrom;
  }

  /** A send becomes a flow from the socket's source to its destination with the bytes asked for. */
  lemma SendBecomesFlow(x: Tracer.Context, id: Tracer.Tid, sk: Tracer.Sock, size: u64, src: seq<Byte>, dst: seq<Byte>,
                        port: seq<Byte>, garbage: seq<Byte>, rest: seq<Byte>, vs: Views, now: string)
    requires |x.comm| == 16 && |garbage| >= 8 && LiesAs(x.peek(sk), src, dst, port)
    ensures var sample := Wire.Sample(Tracer.Filled(x, Tracer.Event(2, id / 0x1_0000_0000, sk, size, None)), garbage);
            var r := Dispatch(sample + rest, vs, now);
            r.Flow? && FlowOfSocket(r.event, src, dst, port, vs) && r.event.kind == Send(size)
  {
    FilledFlow(x, Tracer.Event(2, id / 0x1_0000_0000, sk, size, None), src, dst, port, garbage, rest, vs, now);
    hide *;
  }

  /** Main result: in every interleaving of the probes, the sample of a connect becomes a flow
      between the two ends of the socket of a call that returned 0; the sample of a receive
      is of a call that returned a positive count, and becomes nothing. */
  lemma CallBecomesFlow(acts: seq<Tracer.Action>, i: nat, x: Tracer.Context, src: seq<Byte>, dst: seq<Byte>, port: seq<Byte>,
                        garbage: seq<Byte>, rest: seq<Byte>, vs: Views, now: string)
    requires Tracer.AllHealthy(acts) && |x.comm| == 16 && |garbage| >= 8
    requires var s := Tracer.Run(Tracer.INIT, acts);
             && i < |s.slots| && s.slots[i].Ready? && s.slots[i].event.call.Some?
             && LiesAs(x.peek(s.slots[i].event.sock), src, dst, port)
    ensures var s := Tracer.Run(Tracer.INIT, acts);
            var e := s.slots[i].event;
            var r := Dispatch(Wire.Sample(Tracer.Filled(x, e), garbage) + rest, vs, now);
            && e.call.value < |s.calls|
            && var k := s.calls[e.call.value];
               && e.sock == k.sock
               && (k.pair.Connect? ==> k.ret == Some(0) && r.Flow? && FlowOfSocket(r.event, src, dst, port, vs) && r.event.kind == Connect)
               && (k.pair.Recv? ==> k.ret.Some? && k.ret.value > 0 && r == Ignored)
  {
    var s := Tracer.Run(Tracer.INIT, acts);
    var e := s.slots[i].event;
    Tracer.EventsPaired(acts, i);
    assert e.kind == 1 || e.kind == 3;
    if e.kind == 1 {
      FilledFlow(x, e, src, dst, port, garbage, rest, vs, now);
    } else {
      SampleDispatch(Tracer.Filled(x, e), garbage, rest, vs, now);
    }
    hide Tracer.Run;
    hide Tracer.AllHealthy;
    hide Dispatch;
    hide FlowOfSocket;
    hide LiesAs;
  }
}
