/** Properties of whole runs that concern what is billed: confirmed zones only, and
    no effect of samples that do not count. */
module Billing {
  import opened Wrappers
  import opened Words
  import opened Text
  import opened Float64
  import opened Cache
  import opened Codec
  import opened FlowTable
  import opened Snapshots
  import opened History
  import opened Pipeline
  import opened Accounts
  import FlowKey
  import Informer
  import LogFile
  import Reader
  import Wire

  // ----- The table is the grouping of the events since the last reset -----

  function Events(log: seq<Logged>): seq<FlowEvent> { seq(|log|, i requires 0 <= i < |log| => log[i].event) }

  predicate FromSample(l: Logged) {
    l.event == Reader.Resolved(l.sample, l.views, l.event.now, l.event.kind)
  }

  /** The table these events leave behind. */
  function TableOf(log: seq<Logged>): Table { ApplyAll(map[], Events(log)) }

  function FlowKeys(flows: seq<FlowSummary>): seq<string> { seq(|flows|, i requires 0 <= i < |flows| => flows[i].flow) }

  /** The snapshot took over the table of these events. */
  ghost predicate TakenFrom(cfg: Config, snap: Snapshot, log: seq<Logged>) {
    && Ordered(TableOf(log), FlowKeys(snap.flows))
    && snap == Take(cfg.fp, cfg.rate, TableOf(log), snap.execEvents, FlowKeys(snap.flows), snap.timestamp)
  }

  predicate FromSamples(log: seq<Logged>) { forall l :: l in log ==> FromSample(l) }

  /** The live table is that of the events since the last reset, and so was each table taken. */
  ghost predicate TableInv(cfg: Config, s: State) {
    && s.table == TableOf(s.log) && FromSamples(s.log)
    && |s.logs| == |s.snaps|
    && forall n :: 0 <= n < |s.snaps| ==> TakenFrom(cfg, s.snaps[n], s.logs[n]) && FromSamples(s.logs[n])
  }

  lemma DispatchedFlow(raw: seq<Byte>, vs: Reader.Views, now: string)
    ensures Reader.Dispatch(raw, vs, now).Flow? ==>
              && Wire.Decode(raw).Some?
              && forall at :: FromSample(Logged(Reader.Dispatch(raw, vs, now).event, Wire.Decode(raw).value, vs, at))
  {
    hide Wire.Decode;
    hide Reader.NameFrom;
    hide Reader.ZoneFrom;
    hide Wire.Classify;
    hide Wire.SwapUint16;
    hide Reader.Printed;
  }

  lemma EventsSnoc(log: seq<Logged>, l: Logged)
    ensures ApplyAll(map[], Events(log + [l])) == Apply(ApplyAll(map[], Events(log)), l.event)
  {
    assert Front(Events(log + [l])) == Events(log) && Last(Events(log + [l])) == l.event;
  }

  lemma SampleTable(cfg: Config, s: State, raw: seq<Byte>, at: seq<nat>, now: string)
    requires TableInv(cfg, s)
    ensures TableInv(cfg, SampleStep(s, raw, at, now))
  {
    hide Reader.Dispatch;
    hide Wire.Decode;
    hide Apply;
    hide FromSample;
    hide TakenFrom;
    var vs := if Admissible(s, at) then ViewsAt(s, at) else Reader.Steady(s.cache);
    var x := Reader.Dispatch(raw, vs, now);
    DispatchedFlow(raw, vs, now);
    if x.Flow? && Admissible(s, at) {
      EventsSnoc(s.log, Logged(x.event, Wire.Decode(raw).value, vs, at));
    }
  }

  lemma ResetTable(cfg: Config, s: State, order: seq<string>, now: string)
    requires TableInv(cfg, s)
    ensures TableInv(cfg, ResetStep(cfg, s, order, now))
  {
    hide TableOf;
    hide FromSample;
    NoEvents();
    if s.reporter.Idle? && Ordered(s.table, order) {
      assert Within(s.table, order);
      hide Ordered;
      var snap := Take(cfg.fp, cfg.rate, s.table, s.execs, order, now);
      assert FlowKeys(snap.flows) == order;
      assert TakenFrom(cfg, snap, s.log);
    }
  }

  lemma NoEvents()
    ensures TableOf([]) == map[]
  {
  }

  lemma TableStep(cfg: Config, s: State, a: Action)
    requires TableInv(cfg, s)
    ensures TableInv(cfg, Step(cfg, s, a))
  {
    hide TakenFrom;
    hide FromSamples;
    hide TableOf;
    hide LogFile.Replay;
    match a
    case Sample(raw, at, now) => SampleTable(cfg, s, raw, at, now);
    case Reset(order, now) => ResetTable(cfg, s, order, now);
    case Restart(now) => InitTable(cfg, s.content, now);
    case _ =>
  }

  lemma {:induction false} RunTable(cfg: Config, content: string, now: string, acts: seq<Action>)
    ensures TableInv(cfg, Run(cfg, Init(cfg, content, now), acts))
    decreases |acts|
  {
    hide Step;
    hide TableInv;
    if acts == [] {
      InitTable(cfg, content, now);
    } else {
      RunTable(cfg, content, now, Front(acts));
      TableStep(cfg, Run(cfg, Init(cfg, content, now), Front(acts)), Last(acts));
    }
  }

  lemma InitTable(cfg: Config, content: string, now: string)
    ensures TableInv(cfg, Init(cfg, content, now))
  {
    NoEvents();
  }

  // ----- Endpoints -----

  predicate NamesOk(v: Identities) {
    && (forall ip :: ip in v.pods ==> FlowKey.DnsName(v.pods[ip].namespace) && FlowKey.DnsName(v.pods[ip].name))
    && (forall ip :: ip in v.services ==> FlowKey.DnsName(v.services[ip].namespace) && FlowKey.DnsName(v.services[ip].name))
  }

  function EndpointAt(atPod: Identities, atService: Identities, ip: FlowKey.IPv4): FlowKey.Endpoint {
    match Get(atPod.pods, FlowKey.Dotted(ip))
    case Some(p) => FlowKey.Pod(p.namespace, p.name)
    case None =>
      match Get(atService.services, FlowKey.Dotted(ip))
      case Some(s) => FlowKey.Svc(s.namespace, s.name)
      case None => FlowKey.Raw(ip)
  }

  lemma NameIsEndpoint(atPod: Identities, atService: Identities, ip: FlowKey.IPv4)
    requires NamesOk(atPod) && NamesOk(atService)
    ensures Reader.NameFrom(atPod, atService, FlowKey.Dotted(ip)) == FlowKey.Name(EndpointAt(atPod, atService, ip))
    ensures FlowKey.Nameable(EndpointAt(atPod, atService, ip))
  {
    hide FlowKey.Dotted;
    hide FlowKey.DnsName;
  }

  datatype End = Source | Destination

  /** The lookups that serve an end: its name by pod and service, its zone by pod and node. */
  function NameView(end: End): (i: nat)
    ensures i <= 2
  {
    if end.Source? then 0 else 2
  }

  function ZoneView(end: End): (i: nat)
    ensures 4 <= i <= 6
  {
    if end.Source? then 4 else 6
  }

  function Address(l: Logged, end: End): FlowKey.IPv4 {
    Wire.Octets(if end.Source? then l.sample.srcIP else l.sample.dstIP)
  }

  /** What an end of the flow is called. */
  function Named(l: Logged, end: End): FlowKey.Endpoint {
    EndpointAt(l.views[NameView(end)], l.views[NameView(end) + 1], Address(l, end))
  }

  function Pick(end: End, src: string, dst: string): string { if end.Source? then src else dst }

  function ZoneOf(l: Logged, end: End): string { Pick(end, l.event.srcZone, l.event.dstZone) }
  function RowZone(c: Row, end: End): string { Pick(end, c.srcZone, c.dstZone) }

  predicate WellNamed(l: Logged) { forall i :: 0 <= i < 8 ==> NamesOk(l.views[i]) }

  /** Events as the reader makes them from API-server names. */
  predicate Traced(log: seq<Logged>) { FromSamples(log) && forall l :: l in log ==> WellNamed(l) }

  lemma KeyOf(l: Logged)
    requires FromSample(l) && WellNamed(l)
    ensures FlowKey.Nameable(Named(l, Source)) && FlowKey.Nameable(Named(l, Destination))
    ensures l.event.Key() == FlowKey.Key(FlowKey.Name(Named(l, Source)), FlowKey.Name(Named(l, Destination)), l.event.port)
  {
    hide NamesOk;
    hide Reader.ZoneFrom;
    hide Reader.NameFrom;
    hide EndpointAt;
    hide FlowKey.Name;
    hide FlowKey.Key;
    hide Wire.Classify;
    assert NamesOk(l.views[0]) && NamesOk(l.views[1]) && NamesOk(l.views[2]) && NamesOk(l.views[3]);
    NameIsEndpoint(l.views[0], l.views[1], Wire.Octets(l.sample.srcIP));
    NameIsEndpoint(l.views[2], l.views[3], Wire.Octets(l.sample.dstIP));
  }

  /** Events that share a key share both ends. */
  lemma SameKeySameEnds(l: Logged, m: Logged)
    requires FromSample(l) && WellNamed(l) && FromSample(m) && WellNamed(m)
    requires l.event.Key() == m.event.Key()
    ensures forall end: End :: Named(l, end) == Named(m, end)
  {
    hide FromSample;
    hide WellNamed;
    hide FlowKey.Key;
    hide FlowKey.Name;
    hide Named;
    KeyOf(l);
    KeyOf(m);
    FlowKey.KeyInjective(Named(l, Source), Named(l, Destination), l.event.port,
                         Named(m, Source), Named(m, Destination), m.event.port);
    forall end: End ensures Named(l, end) == Named(m, end) { assert end == Source || end == Destination; }
  }

  // ----- Zones found -----

  /** The pod this address belongs to in cache v. */
  function PodAt(v: Identities, ip: FlowKey.IPv4): Option<FlowKey.Endpoint> {
    match Get(v.pods, FlowKey.Dotted(ip))
    case None => None
    case Some(p) => Some(FlowKey.Pod(p.namespace, p.name))
  }

  /** In cache `atPod` the address is a pod's, whose node has this known zone in cache `atNode`. */
  predicate ZoneKnown(atPod: Identities, atNode: Identities, ip: FlowKey.IPv4, zone: string) {
    && FlowKey.Dotted(ip) in atPod.pods
    && var node := atPod.pods[FlowKey.Dotted(ip)].node;
       node != "" && node in atNode.nodes && atNode.nodes[node].zone == zone && zone != "" && zone != Informer.UNKNOWN
  }

  /** The zone lookups for one end of the event find this zone. */
  predicate Found(l: Logged, end: End, zone: string) {
    ZoneKnown(l.views[ZoneView(end)], l.views[ZoneView(end) + 1], Address(l, end), zone)
  }

  lemma ZoneFromKnown(atPod: Identities, atNode: Identities, ip: FlowKey.IPv4)
    ensures var zone := Reader.ZoneFrom(atPod, atNode, FlowKey.Dotted(ip));
            && (zone != "" ==> ZoneKnown(atPod, atNode, ip, zone))
            && forall z :: ZoneKnown(atPod, atNode, ip, z) ==> z == zone
  {
    hide FlowKey.Dotted;
  }

  /** An event carries a zone on an end exactly when the lookups found that zone. */
  lemma ZoneFound(l: Logged, end: End)
    requires FromSample(l)
    ensures ZoneOf(l, end) != "" ==> Found(l, end, ZoneOf(l, end))
    ensures forall z :: Found(l, end, z) ==> z == ZoneOf(l, end) && z != ""
  {
    hide Reader.NameFrom;
    hide Reader.ZoneFrom;
    hide Wire.Classify;
    ZoneFromKnown(l.views[ZoneView(end)], l.views[ZoneView(end) + 1], Address(l, end));
  }

  // ----- Which event a row's zone comes from -----

  predicate Under(log: seq<Logged>, key: string, j: int) { 0 <= j < |log| && log[j].event.Key() == key }

  /** The last event under this key that carries a zone on this end. */
  predicate LastZoned(log: seq<Logged>, key: string, end: End, j: int) {
    && Under(log, key, j) && ZoneOf(log[j], end) != ""
    && forall k :: j < k < |log| && Under(log, key, k) ==> ZoneOf(log[k], end) == ""
  }

  function ZoneOver(log: seq<Logged>, key: string, end: End): string
    decreases |log|
  {
    if log == [] then ""
    else if Last(log).event.Key() == key && ZoneOf(Last(log), end) != "" then ZoneOf(Last(log), end)
    else ZoneOver(Front(log), key, end)
  }

  lemma {:induction false} GroupZone(log: seq<Logged>, key: string)
    ensures LastNonempty(SrcZones(Group(Events(log), key))) == ZoneOver(log, key, Source)
    ensures LastNonempty(DstZones(Group(Events(log), key))) == ZoneOver(log, key, Destination)
    decreases |log|
  {
    hide FlowEvent.Key;
    if log == [] {
      assert SrcZones([]) == [] && DstZones([]) == [];
    } else {
      GroupZone(Front(log), key);
      assert Front(Events(log)) == Events(Front(log)) && Last(Events(log)) == Last(log).event;
      GroupStep(Events(log), key);
      CountsSnoc(Group(Events(Front(log)), key), Last(log).event);
    }
  }

  lemma {:induction false} ZoneOverIs(log: seq<Logged>, key: string, end: End)
    ensures ZoneOver(log, key, end) == "" ==> forall j :: Under(log, key, j) ==> ZoneOf(log[j], end) == ""
    ensures ZoneOver(log, key, end) != "" ==>
              exists j :: LastZoned(log, key, end, j) && ZoneOf(log[j], end) == ZoneOver(log, key, end)
    decreases |log|
  {
    hide FlowEvent.Key;
    hide ZoneOf;
    if log != [] {
      var n := |log| - 1;
      ZoneOverIs(Front(log), key, end);
      assert forall j :: 0 <= j < n ==> Front(log)[j] == log[j] && (Under(Front(log), key, j) <==> Under(log, key, j));
      if Under(log, key, n) && ZoneOf(log[n], end) != "" {
        assert LastZoned(log, key, end, n);
      } else if ZoneOver(log, key, end) != "" {
        var j :| LastZoned(Front(log), key, end, j) && ZoneOf(Front(log)[j], end) == ZoneOver(Front(log), key, end);
        assert LastZoned(log, key, end, j);
      }
    }
  }

  /** A row carries on an end exactly the zone of the last event of the row that had one. */
  lemma RowZoneIs(log: seq<Logged>, key: string, end: End)
    requires key in TableOf(log)
    ensures var zone := RowZone(TableOf(log)[key], end);
            && (zone == "" <==> forall j :: Under(log, key, j) ==> ZoneOf(log[j], end) == "")
            && (forall j :: LastZoned(log, key, end, j) ==> zone == ZoneOf(log[j], end))
            && (zone != "" ==> exists j :: LastZoned(log, key, end, j))
  {
    hide FlowEvent.Key;
    hide ZoneOf;
    var zone := RowZone(TableOf(log)[key], end);
    TableIsGroupBy(Events(log), key);
    GroupZone(log, key);
    ZoneOverIs(log, key, end);
    assert zone == ZoneOver(log, key, end);
    forall j | LastZoned(log, key, end, j) ensures zone == ZoneOf(log[j], end) {
      var i :| LastZoned(log, key, end, i) && ZoneOf(log[i], end) == zone;
      assert i == j;
    }
  }

  // ----- Exactly what is billed -----

  /** The pod turned up between the name lookup and the zone lookups. */
  ghost predicate Late(l: Logged, end: End) {
    PodAt(l.views[NameView(end)], Address(l, end)).None? && exists zone :: Found(l, end, zone)
  }

  /** The name lookup and the zone lookup found the same pod, or neither found any. */
  predicate SamePod(l: Logged, end: End) {
    PodAt(l.views[NameView(end)], Address(l, end)) == PodAt(l.views[ZoneView(end)], Address(l, end))
  }

  /** Some event of the row found this zone for the very pod this end is named after. */
  ghost predicate Owned(log: seq<Logged>, key: string, end: End, zone: string, name: FlowKey.Endpoint) {
    exists j :: Under(log, key, j) && Found(log[j], end, zone) && PodAt(log[j].views[ZoneView(end)], Address(log[j], end)) == Some(name)
  }

  predicate Different(log: seq<Logged>, j: int, k: int) {
    0 <= j < |log| && 0 <= k < |log| && ZoneOf(log[j], Source) != ZoneOf(log[k], Destination)
  }

  /** The zones under a key, exactly. An end that is not a pod has a zone if and only if a pod turned
      up late under some event of the row. Any end's zone is its own pod's if and only if
      an event of the row found it with both lookups agreeing on the pod. And the row is
      cross-AZ if and only if the last zoned events of its two ends had different zones. */
  ghost predicate Exactly(log: seq<Logged>, i: int, srcZone: string, dstZone: string, cross: bool)
    requires 0 <= i < |log|
  {
    var key := log[i].event.Key();
    && (forall end: End :: !Named(log[i], end).Pod? ==>
          (Pick(end, srcZone, dstZone) != "" <==> exists j :: Under(log, key, j) && Late(log[j], end)))
    && (forall end: End ::
          (Owned(log, key, end, Pick(end, srcZone, dstZone), Named(log[i], end))
           <==> exists j :: Under(log, key, j) && Found(log[j], end, Pick(end, srcZone, dstZone)) && SamePod(log[j], end)))
    && (cross <==> exists j, k :: LastZoned(log, key, Source, j) && LastZoned(log, key, Destination, k) && Different(log, j, k))
  }

  lemma NamedPod(l: Logged, end: End)
    ensures Named(l, end).Pod? <==> PodAt(l.views[NameView(end)], Address(l, end)).Some?
    ensures Named(l, end).Pod? ==> PodAt(l.views[NameView(end)], Address(l, end)) == Some(Named(l, end))
  {
    hide FlowKey.Dotted;
  }

  lemma KeyInTable(log: seq<Logged>, key: string)
    ensures key in TableOf(log) <==> exists i :: Under(log, key, i)
  {
    hide FlowEvent.Key;
    TableIsGroupBy(Events(log), key);
    if key in TableOf(log) {
      var i :| 0 <= i < |Events(log)| && Events(log)[i].Key() == key;
      assert Under(log, key, i);
    }
    if i :| Under(log, key, i) {
      assert Events(log)[i].Key() == key;
    }
  }

  lemma StrangerZoned(log: seq<Logged>, i: nat, end: End)
    requires Traced(log) && i < |log| && !Named(log[i], end).Pod?
    ensures log[i].event.Key() in TableOf(log)
    ensures var key := log[i].event.Key();
            RowZone(TableOf(log)[key], end) != "" <==> exists j :: Under(log, key, j) && Late(log[j], end)
  {
    hide FlowEvent.Key;
    hide FromSample;
    hide WellNamed;
    hide Named;
    hide PodAt;
    hide Found;
    hide ZoneOf;
    hide TableOf;
    hide RowZone;
    var key := log[i].event.Key();
    assert Under(log, key, i);
    KeyInTable(log, key);
    RowZoneIs(log, key, end);
    forall j | Under(log, key, j) ensures ZoneOf(log[j], end) != "" <==> Late(log[j], end) {
      assert log[i] in log && log[j] in log;
      SameKeySameEnds(log[i], log[j]);
      NamedPod(log[j], end);
      ZoneFound(log[j], end);
    }
  }

  lemma OwnedExactly(log: seq<Logged>, i: nat, end: End, zone: string)
    requires Traced(log) && i < |log|
    ensures var key := log[i].event.Key();
            Owned(log, key, end, zone, Named(log[i], end))
            <==> exists j :: Under(log, key, j) && Found(log[j], end, zone) && SamePod(log[j], end)
  {
    hide FlowEvent.Key;
    hide FromSample;
    hide WellNamed;
    hide Named;
    var key := log[i].event.Key();
    forall j | Under(log, key, j) && Found(log[j], end, zone)
      ensures SamePod(log[j], end) <==> PodAt(log[j].views[ZoneView(end)], Address(log[j], end)) == Some(Named(log[i], end))
    {
      assert log[i] in log && log[j] in log;
      SameKeySameEnds(log[i], log[j]);
      NamedPod(log[j], end);
    }
  }

  lemma CrossExactly(log: seq<Logged>, key: string)
    requires key in TableOf(log)
    ensures TableOf(log)[key].CrossAZ()
       <==> exists j, k :: LastZoned(log, key, Source, j) && LastZoned(log, key, Destination, k) && Different(log, j, k)
  {
    hide TableOf;
    hide ZoneOf;
    RowZoneIs(log, key, Source);
    RowZoneIs(log, key, Destination);
    hide FlowEvent.Key;
    var c := TableOf(log)[key];
    if c.CrossAZ() {
      var j :| LastZoned(log, key, Source, j);
      var k :| LastZoned(log, key, Destination, k);
      assert Different(log, j, k);
    }
  }

  /** Between two ends that are not pods, both zones were late finds. */
  lemma StrangersCross(log: seq<Logged>, i: nat)
    requires Traced(log) && i < |log| && !Named(log[i], Source).Pod? && !Named(log[i], Destination).Pod?
    ensures var key := log[i].event.Key();
            && key in TableOf(log)
            && (TableOf(log)[key].CrossAZ() <==>
                  exists j, k :: && LastZoned(log, key, Source, j) && Late(log[j], Source)
                                 && LastZoned(log, key, Destination, k) && Late(log[k], Destination) && Different(log, j, k))
  {
    hide FlowEvent.Key;
    hide FromSample;
    hide WellNamed;
    hide Named;
    hide PodAt;
    hide Found;
    hide ZoneOf;
    hide TableOf;
    hide Row.CrossAZ;
    var key := log[i].event.Key();
    assert Under(log, key, i);
    KeyInTable(log, key);
    CrossExactly(log, key);
    forall j, end: End | LastZoned(log, key, end, j) ensures Late(log[j], end) {
      assert log[i] in log && log[j] in log;
      assert end == Source || end == Destination;
      SameKeySameEnds(log[i], log[j]);
      NamedPod(log[j], end);
      ZoneFound(log[j], end);
    }
  }

  lemma RowExactly(log: seq<Logged>, i: nat)
    requires Traced(log) && i < |log|
    ensures var key := log[i].event.Key();
            && key in TableOf(log)
            && var c := TableOf(log)[key]; Exactly(log, i, c.srcZone, c.dstZone, c.CrossAZ())
  {
    hide FlowEvent.Key;
    hide Traced;
    hide Named;
    hide Owned;
    hide Late;
    hide Found;
    hide SamePod;
    hide LastZoned;
    hide Different;
    hide TableOf;
    hide Row.CrossAZ;
    var key := log[i].event.Key();
    assert Under(log, key, i);
    KeyInTable(log, key);
    var c := TableOf(log)[key];
    CrossExactly(log, key);
    forall end: End ensures !Named(log[i], end).Pod? ==>
        (Pick(end, c.srcZone, c.dstZone) != "" <==> exists j :: Under(log, key, j) && Late(log[j], end))
    {
      if !Named(log[i], end).Pod? { StrangerZoned(log, i, end); }
    }
    forall end: End ensures Owned(log, key, end, Pick(end, c.srcZone, c.dstZone), Named(log[i], end))
        <==> exists j :: Under(log, key, j) && Found(log[j], end, Pick(end, c.srcZone, c.dstZone)) && SamePod(log[j], end)
    {
      OwnedExactly(log, i, end, Pick(end, c.srcZone, c.dstZone));
    }
  }

  // ----- When the cache holds still -----

  /** No informer changed the cache between the lookups for this event. */
  predicate Undisturbed(l: Logged) { forall i :: 0 <= i < 8 ==> l.views[i] == l.views[0] }

  /** With the cache at rest, a zone on an end means a pod there, and its own zone. */
  lemma RestIsOwned(log: seq<Logged>, i: nat, end: End)
    requires Traced(log) && i < |log| && forall l :: l in log ==> Undisturbed(l)
    ensures log[i].event.Key() in TableOf(log)
    ensures var key := log[i].event.Key();
            var zone := RowZone(TableOf(log)[key], end);
            zone != "" ==> Named(log[i], end).Pod? && Owned(log, key, end, zone, Named(log[i], end))
  {
    hide FlowEvent.Key;
    hide FromSample;
    hide WellNamed;
    hide Named;
    hide ZoneOf;
    hide TableOf;
    hide RowZone;
    var key := log[i].event.Key();
    assert Under(log, key, i);
    KeyInTable(log, key);
    RowZoneIs(log, key, end);
    var zone := RowZone(TableOf(log)[key], end);
    if zone != "" {
      var j :| LastZoned(log, key, end, j);
      assert log[i] in log && log[j] in log;
      SameKeySameEnds(log[i], log[j]);
      ZoneFound(log[j], end);
      assert log[j].views[ZoneView(end)] == log[j].views[NameView(end)];
      NamedPod(log[j], end);
    }
  }

  // ----- Names come from the API server -----

  /** Delivered pods and services have DNS names. */
  predicate NamedEvent(e: Informer.Event) {
    match e
    case PodAdd(Object(p)) => FlowKey.DnsName(p.namespace) && FlowKey.DnsName(p.name)
    case PodUpdate(Object(p)) => FlowKey.DnsName(p.namespace) && FlowKey.DnsName(p.name)
    case ServiceAdd(Object(s)) => FlowKey.DnsName(s.namespace) && FlowKey.DnsName(s.name)
    case ServiceUpdate(Object(s)) => FlowKey.DnsName(s.namespace) && FlowKey.DnsName(s.name)
    case _ => true
  }

  predicate AllNamed(acts: seq<Action>) { forall a :: a in acts ==> a.Inform? ==> NamedEvent(a.event) }

  predicate NamesInv(s: State) {
    && NamesOk(s.cache)
    && (forall v :: v in s.caches ==> NamesOk(v))
    && (forall l :: l in s.log ==> WellNamed(l))
    && (forall log, l :: log in s.logs && l in log ==> WellNamed(l))
  }

  lemma HandleNamed(v: Identities, e: Informer.Event)
    requires NamesOk(v) && NamedEvent(e)
    ensures NamesOk(Informer.Handle(v, e))
  {
    hide FlowKey.DnsName;
  }

  lemma NamesStep(cfg: Config, s: State, a: Action)
    requires NamesInv(s) && (a.Inform? ==> NamedEvent(a.event))
    ensures NamesInv(Step(cfg, s, a))
  {
    hide Reader.Dispatch;
    match a
    case Sample(raw, at, now) =>
      if Admissible(s, at) {
        forall i | 0 <= i < 8 ensures NamesOk(ViewsAt(s, at)[i]) { assert s.caches[at[i]] in s.caches; }
      }
    case Inform(e) => HandleNamed(s.cache, e);
    case Reset(order, now) =>
      hide Take;
      hide Ordered;
    case _ =>
  }

  lemma {:induction false} RunNamed(cfg: Config, content: string, now: string, acts: seq<Action>)
    requires AllNamed(acts)
    ensures NamesInv(Run(cfg, Init(cfg, content, now), acts))
    decreases |acts|
  {
    hide Step;
    if acts != [] {
      assert Last(acts) in acts;
      RunNamed(cfg, content, now, Front(acts));
      NamesStep(cfg, Run(cfg, Init(cfg, content, now), Front(acts)), Last(acts));
    }
  }

  lemma LogsNamed(cfg: Config, content: string, now: string, acts: seq<Action>)
    requires AllNamed(acts)
    ensures var s := Run(cfg, Init(cfg, content, now), acts);
            && Traced(s.log) && s.table == TableOf(s.log)
            && |s.logs| == |s.snaps|
            && forall n :: 0 <= n < |s.snaps| ==> Traced(s.logs[n]) && TakenFrom(cfg, s.snaps[n], s.logs[n])
  {
    hide Run;
    hide FromSample;
    hide WellNamed;
    hide TakenFrom;
    hide TableOf;
    var s := Run(cfg, Init(cfg, content, now), acts);
    RunTable(cfg, content, now, acts);
    RunNamed(cfg, content, now, acts);
    forall n | 0 <= n < |s.snaps| ensures Traced(s.logs[n]) { assert s.logs[n] in s.logs; }
  }

  /** Main result: in every reachable state, whatever the informers do between lookups,
      each row's zones, their owners and whether it is cross-AZ are exactly as `Exactly` says. */
  lemma BillingExact(cfg: Config, content: string, now: string, acts: seq<Action>, i: nat)
    requires AllNamed(acts) && i < |Run(cfg, Init(cfg, content, now), acts).log|
    ensures var s := Run(cfg, Init(cfg, content, now), acts);
            var key := s.log[i].event.Key();
            && key in s.table
            && Exactly(s.log, i, s.table[key].srcZone, s.table[key].dstZone, s.table[key].CrossAZ())
  {
    hide Run;
    hide FlowEvent.Key;
    hide Exactly;
    LogsNamed(cfg, content, now, acts);
    RowExactly(Run(cfg, Init(cfg, content, now), acts).log, i);
  }

  /** If the cache held still while each event since the last reset was resolved, a row with
      a zone on an end has a pod on that end, and the zone was found for that pod; a row
      with a service or a raw address on an end is not cross-AZ and costs nothing. */
  lemma BillingSafe(cfg: Config, content: string, now: string, acts: seq<Action>, i: nat)
    requires AllNamed(acts)
    requires var s := Run(cfg, Init(cfg, content, now), acts);
             i < |s.log| && forall l :: l in s.log ==> Undisturbed(l)
    ensures var s := Run(cfg, Init(cfg, content, now), acts);
            var key := s.log[i].event.Key();
            && key in s.table
            && (forall end: End :: RowZone(s.table[key], end) != "" ==>
                  Named(s.log[i], end).Pod? && Owned(s.log, key, end, RowZone(s.table[key], end), Named(s.log[i], end)))
            && (!Named(s.log[i], Source).Pod? || !Named(s.log[i], Destination).Pod? ==>
                  !s.table[key].CrossAZ() && s.table[key].CostUSD(cfg.fp, cfg.rate) == 0.0)
  {
    hide Run;
    hide FlowEvent.Key;
    hide Traced;
    hide Undisturbed;
    hide Named;
    hide Owned;
    hide TableOf;
    LogsNamed(cfg, content, now, acts);
    var s := Run(cfg, Init(cfg, content, now), acts);
    var key := s.log[i].event.Key();
    RestIsOwned(s.log, i, Source);
    RestIsOwned(s.log, i, Destination);
    assert RowZone(s.table[key], Source) == s.table[key].srcZone && RowZone(s.table[key], Destination) == s.table[key].dstZone;
    forall end: End ensures RowZone(s.table[key], end) != "" ==>
        Named(s.log[i], end).Pod? && Owned(s.log, key, end, RowZone(s.table[key], end), Named(s.log[i], end))
    {
      assert end == Source || end == Destination;
    }
  }

  /** Every row of the table is the row of some event since the last reset, and under one
      key all events have the same two ends. */
  lemma RowsLogged(cfg: Config, content: string, now: string, acts: seq<Action>, key: string)
    requires AllNamed(acts)
    ensures var s := Run(cfg, Init(cfg, content, now), acts);
            && (key in s.table <==> exists i :: Under(s.log, key, i))
            && (forall i, j, end: End :: Under(s.log, key, i) && Under(s.log, key, j) ==> Named(s.log[i], end) == Named(s.log[j], end))
  {
    hide Run;
    hide FlowEvent.Key;
    hide FromSample;
    hide WellNamed;
    hide Named;
    hide TableOf;
    var s := Run(cfg, Init(cfg, content, now), acts);
    LogsNamed(cfg, content, now, acts);
    KeyInTable(s.log, key);
    forall i, j, end: End | Under(s.log, key, i) && Under(s.log, key, j)
      ensures Named(s.log[i], end) == Named(s.log[j], end)
    {
      assert s.log[i] in s.log && s.log[j] in s.log;
      SameKeySameEnds(s.log[i], s.log[j]);
    }
  }

  // ----- What is published and counted -----

  /** The costs of the listed flows, added left to right. */
  function FlowsCost(fp: Fp, flows: seq<FlowSummary>): real
    decreases |flows|
  {
    if flows == [] then 0.0 else fp.Add(FlowsCost(fp, Front(flows)), Last(flows).costUSD)
  }

  lemma {:induction false} CostOfFlows(fp: Fp, rate: real, t: Table, keys: seq<string>)
    requires Within(t, keys)
    ensures FlowsCost(fp, Flows(fp, rate, t, keys)) == Cost(fp, rate, t, keys)
    decreases |keys|
  {
    if keys != [] {
      assert Front(Flows(fp, rate, t, keys)) == Flows(fp, rate, t, Front(keys));
      CostOfFlows(fp, rate, t, Front(keys));
    }
  }

  /** Main result: cumulative cost is what was read back and the costs of the snapshots
      recorded since; every snapshot has the cost of its listed flows; each listed flow is billed
      exactly as its own interval's events say, and if the cache held still while they
      were resolved, a flow that costs anything has on each end a pod and that pod's zone. */
  lemma SnapshotsBilled(cfg: Config, content: string, now: string, acts: seq<Action>, n: nat, m: nat)
    requires AllNamed(acts)
    requires var s := Run(cfg, Init(cfg, content, now), acts);
             n < |s.snaps| && m < |s.snaps[n].flows|
    ensures var s := Run(cfg, Init(cfg, content, now), acts);
            && |s.logs| == |s.snaps|
            && (s.latest.Some? ==> s.latest.value in s.snaps)
            && s.recorded <= |s.snaps|
            && s.totals.cost == CostOfSnaps(cfg.fp, AbsorbAll(cfg.fp, EMPTY, s.replayed).cost, s.snaps[..s.recorded])
            && s.snaps[n].totalCostUSD == FlowsCost(cfg.fp, s.snaps[n].flows)
            && var log, f := s.logs[n], s.snaps[n].flows[m];
               && (f.costUSD != 0.0 ==> f.crossAZ)
               && (f.crossAZ <==> f.srcZone != "" && f.dstZone != "" && f.srcZone != f.dstZone)
               && exists i :: FlowBilled(log, f, i)
  {
    hide Run;
    hide Traced;
    hide FlowBilled;
    hide AbsorbAll;
    hide InRing;
    LogsNamed(cfg, content, now, acts);
    RunCounts(cfg, content, now, acts);
    HistoryIsSnapshots(cfg, content, now, acts);
    var s := Run(cfg, Init(cfg, content, now), acts);
    FlowIsBilled(cfg, s.snaps[n], s.logs[n], m);
  }

  ghost predicate FlowBilled(log: seq<Logged>, f: FlowSummary, i: int) {
    && Under(log, f.flow, i)
    && Exactly(log, i, f.srcZone, f.dstZone, f.crossAZ)
    && ((forall l :: l in log ==> Undisturbed(l)) && f.costUSD != 0.0 ==>
          forall end: End :: Named(log[i], end).Pod? && Owned(log, f.flow, end, Pick(end, f.srcZone, f.dstZone), Named(log[i], end)))
  }

  lemma FlowIsBilled(cfg: Config, snap: Snapshot, log: seq<Logged>, m: nat)
    requires Traced(log) && TakenFrom(cfg, snap, log) && m < |snap.flows|
    ensures snap.totalCostUSD == FlowsCost(cfg.fp, snap.flows)
    ensures var f := snap.flows[m];
            && (f.costUSD != 0.0 ==> f.crossAZ)
            && (f.crossAZ <==> f.srcZone != "" && f.dstZone != "" && f.srcZone != f.dstZone)
            && exists i :: FlowBilled(log, f, i)
  {
    hide Traced;
    hide Exactly;
    hide Undisturbed;
    hide Named;
    hide Owned;
    hide Cost;
    hide FlowsCost;
    hide FlowEvent.Key;
    hide TableOf;
    var t, keys, f := TableOf(log), FlowKeys(snap.flows), snap.flows[m];
    CostOfFlows(cfg.fp, cfg.rate, t, keys);
    assert f == FlowOf(cfg.fp, cfg.rate, keys[m], t[keys[m]]);
    KeyInTable(log, f.flow);
    var i :| Under(log, f.flow, i);
    RowExactly(log, i);
    if (forall l :: l in log ==> Undisturbed(l)) && f.costUSD != 0.0 {
      RestIsOwned(log, i, Source);
      RestIsOwned(log, i, Destination);
      forall end: End ensures Named(log[i], end).Pod? && Owned(log, f.flow, end, Pick(end, f.srcZone, f.dstZone), Named(log[i], end)) {
        assert end == Source || end == Destination;
      }
    }
    assert FlowBilled(log, f, i);
  }

  // ----- The condition is needed -----

  /** Two nodes in two zones, and a pod on each with one of the two addresses. */
  function Arrivals(a: string, b: string): seq<Informer.Event> {
    [Informer.NodeAdd(Informer.Object(Informer.Node("n", map[Informer.ZONE := "x"]))),
     Informer.NodeAdd(Informer.Object(Informer.Node("o", map[Informer.ZONE := "y"]))),
     Informer.PodAdd(Informer.Object(Informer.Pod("d", "p", a, "n"))),
     Informer.PodAdd(Informer.Object(Informer.Pod("d", "q", b, "o")))]
  }

  /** Both pods arrive between the name lookups and the zone lookups of one send. */
  function LateArrivals(raw: seq<Byte>, a: string, b: string, now: string): seq<Action> {
    var es := Arrivals(a, b);
    [Inform(es[0]), Inform(es[1]), Inform(es[2]), Inform(es[3]), Sample(raw, TWO_THEN_FOUR, now)]
  }

  const TWO_THEN_FOUR: seq<nat> := [2, 2, 2, 2, 4, 4, 4, 4]

  function InformAll(s: State, es: seq<Informer.Event>): State
    requires |es| == 4
  {
    InformStep(InformStep(InformStep(InformStep(s, es[0]), es[1]), es[2]), es[3])
  }

  lemma InformedCaches(s: State, es: seq<Informer.Event>)
    requires |es| == 4 && s.caches == [s.cache]
    ensures var t := InformAll(s, es);
            && |t.caches| == 5
            && t.caches[2] == Informer.Handle(Informer.Handle(s.cache, es[0]), es[1])
            && t.caches[4] == Informer.Handle(Informer.Handle(t.caches[2], es[2]), es[3])
            && t.seen == s.seen && t.table == s.table && t.log == s.log
  {
    hide Informer.Handle;
  }

  lemma ArrivedCaches(a: string, b: string)
    requires a != "" && b != "" && a != b
    ensures var es := Arrivals(a, b);
            var v := Informer.Handle(Informer.Handle(Informer.NO_IDENTITIES, es[0]), es[1]);
            var w := Informer.Handle(Informer.Handle(v, es[2]), es[3]);
            && v.pods == map[] && v.services == map[]
            && Reader.ZoneFrom(w, w, a) == "x" && Reader.ZoneFrom(w, w, b) == "y"
  {
    var es := Arrivals(a, b);
    var v := Informer.Handle(Informer.Handle(Informer.NO_IDENTITIES, es[0]), es[1]);
    var w := Informer.Handle(Informer.Handle(v, es[2]), es[3]);
    assert a in w.pods && w.pods[a] == PodInfo("p", "d", "n") && b in w.pods && w.pods[b] == PodInfo("q", "d", "o");
    assert "n" in w.nodes && w.nodes["n"].zone == "x" && "o" in w.nodes && w.nodes["o"].zone == "y";
  }

  lemma DistinctDotted(a: FlowKey.IPv4, b: FlowKey.IPv4)
    requires a != b
    ensures FlowKey.Dotted(a) != FlowKey.Dotted(b) && FlowKey.Dotted(a) != "" && FlowKey.Dotted(b) != ""
  {
    FlowKey.DottedParses(a);
    FlowKey.DottedParses(b);
  }

  lemma FiveActions(cfg: Config, s: State, acts: seq<Action>)
    requires |acts| == 5
    ensures Run(cfg, s, acts)
         == Step(cfg, Step(cfg, Step(cfg, Step(cfg, Step(cfg, s, acts[0]), acts[1]), acts[2]), acts[3]), acts[4])
  {
    hide Step;
    assert acts[..0] == [] && acts[..5] == acts;
    forall k | 0 <= k < 5 ensures Run(cfg, s, acts[..k + 1]) == Step(cfg, Run(cfg, s, acts[..k]), acts[k]) {
      assert Front(acts[..k + 1]) == acts[..k] && Last(acts[..k + 1]) == acts[k];
    }
    assert acts[..0 + 1] == acts[..1] && acts[..1 + 1] == acts[..2] && acts[..2 + 1] == acts[..3] && acts[..3 + 1] == acts[..4];
  }

  lemma RunLate(cfg: Config, s: State, raw: seq<Byte>, a: string, b: string, now: string)
    ensures Run(cfg, s, LateArrivals(raw, a, b, now)) == SampleStep(InformAll(s, Arrivals(a, b)), raw, TWO_THEN_FOUR, now)
  {
    FiveActions(cfg, s, LateArrivals(raw, a, b, now));
    hide Run;
    hide InformStep;
    hide SampleStep;
  }

  lemma ArrivalsNamed(raw: seq<Byte>, a: string, b: string, now: string)
    ensures AllNamed(LateArrivals(raw, a, b, now))
  {
  }

  /** A run, from any start, that bills traffic between two raw addresses. */
  lemma LateArrivalsBilled(cfg: Config, content: string, now: string, e: Wire.Event, garbage: seq<Byte>, rest: seq<Byte>)
    requires |e.comm| == Wire.COMM_LEN && |garbage| >= 8 && e.kind == Wire.SEND
    requires Wire.Octets(e.srcIP) != Wire.Octets(e.dstIP)
    ensures var acts := LateArrivals(Wire.Sample(e, garbage) + rest, Reader.Printed(e.srcIP), Reader.Printed(e.dstIP), now);
            AllNamed(acts) && StrangersBilled(Run(cfg, Init(cfg, content, now), acts), e.bytes)
  {
    var a, b, raw := Reader.Printed(e.srcIP), Reader.Printed(e.dstIP), Wire.Sample(e, garbage) + rest;
    DistinctDotted(Wire.Octets(e.srcIP), Wire.Octets(e.dstIP));
    var s := Init(cfg, content, now);
    assert s.caches == [s.cache] && s.cache == Informer.NO_IDENTITIES;
    hide Init;
    hide Run;
    hide StrangersBilled;
    hide Informer.Handle;
    hide Wire.Decode;
    hide Wire.Sample;
    hide Reader.Printed;
    hide Reader.ZoneFrom;
    hide SampleStep;
    hide InformStep;
    Wire.SampleRoundTrip(e, garbage, rest);
    ArrivalsNamed(raw, a, b, now);
    RunLate(cfg, s, raw, a, b, now);
    ArrivedCaches(a, b);
    InformedCaches(s, Arrivals(a, b));
    BilledBetween(cfg, InformAll(s, Arrivals(a, b)), raw, e, now);
  }

  /** The one flow is between two raw addresses and is billed as cross-AZ. */
  predicate StrangersBilled(s: State, bytes: nat) {
    && |s.log| == 1
    && Named(s.log[0], Source).Raw? && Named(s.log[0], Destination).Raw?
    && var key := s.log[0].event.Key();
       key in s.table && s.table[key].CrossAZ() && s.table[key].bytes == bytes
  }

  /** One send whose two addresses were nobody's at the name lookups and are pods' in two
      zones at the zone lookups. */
  lemma BilledBetween(cfg: Config, t: State, raw: seq<Byte>, e: Wire.Event, now: string)
    requires Wire.Decode(raw) == Some(e) && e.kind == Wire.SEND
    requires |t.caches| == 5 && t.seen <= 2 && t.table == map[] && t.log == []
    requires var a, b, v, w := Reader.Printed(e.srcIP), Reader.Printed(e.dstIP), t.caches[2], t.caches[4];
             && v.pods == map[] && v.services == map[]
             && Reader.ZoneFrom(w, w, a) != "" && Reader.ZoneFrom(w, w, b) != ""
             && Reader.ZoneFrom(w, w, a) != Reader.ZoneFrom(w, w, b)
    ensures StrangersBilled(SampleStep(t, raw, TWO_THEN_FOUR, now), e.bytes)
  {
    hide Wire.Decode;
    hide Wire.Classify;
    hide FlowEvent.Key;
    hide Reader.ZoneFrom;
    assert Admissible(t, TWO_THEN_FOUR);
    var vs := ViewsAt(t, TWO_THEN_FOUR);
    assert vs[0] == vs[1] == vs[2] == vs[3] == t.caches[2] && vs[4] == vs[5] == vs[6] == vs[7] == t.caches[4];
    var x := Reader.Resolved(e, vs, now, Send(e.bytes));
    var l := Logged(x, e, vs, TWO_THEN_FOUR);
    hide Admissible;
    hide Reader.Resolved;
    hide ViewsAt;
    hide Apply;
    assert Reader.Dispatch(raw, vs, now) == Reader.Flow(x);
    StrangerNamed(l);
    FirstRow(x);
  }

  lemma StrangerNamed(l: Logged)
    requires l.views[0].pods == map[] && l.views[1].services == map[] && l.views[2].pods == map[] && l.views[3].services == map[]
    ensures Named(l, Source).Raw? && Named(l, Destination).Raw?
  {
    hide FlowKey.Dotted;
    hide Wire.Octets;
  }

  lemma FirstRow(x: FlowEvent)
    requires x.kind.Send? && x.srcZone != "" && x.dstZone != "" && x.srcZone != x.dstZone
    ensures var t := Apply(map[], x);
            x.Key() in t && t[x.Key()].CrossAZ() && t[x.Key()].bytes == x.kind.n
  {
    hide FlowEvent.Key;
  }
}
