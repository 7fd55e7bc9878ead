/** The live connection table as a value: what one event does to it, and the
    grouping of events by flow key that it must equal
    (pkg/adapters/ebpf/stats.go). */
module FlowTable {
  import opened Words
  import opened Text
  import opened Float64
  import FlowKey

  /** One connStat. Times are opaque and already formatted. */
  datatype Row = Row(count: u64, bytes: u64, lastSeen: string, netClass: string, srcZone: string, dstZone: string)
  {
    predicate CrossAZ() { srcZone != "" && dstZone != "" && srcZone != dstZone }

    function CostUSD(fp: Fp, rate: real): real {
      if !CrossAZ() then 0.0 else fp.Mul(fp.Div(fp.OfInt(bytes), 1000000000.0), rate)
    }
  }

  type Table = map<string, Row>

  datatype Kind = Connect | Send(n: u64)

  /** One decoded, resolved event, as RecordTCP or RecordBytes receives it. */
  datatype FlowEvent = FlowEvent(src: string, dst: string, port: u16, netClass: string,
                                 srcZone: string, dstZone: string, now: string, kind: Kind)
  {
    function Key(): string { FlowKey.Key(src, dst, port) }
  }

  function Sticky(zone: string, known: string): string { if zone != "" then zone else known }

  function GetOrCreate(t: Table, key: string, netClass: string, srcZone: string, dstZone: string): Row {
    var c := if key in t then t[key] else Row(0, 0, "", netClass, srcZone, dstZone);
    c.(srcZone := Sticky(srcZone, c.srcZone), dstZone := Sticky(dstZone, c.dstZone))
  }

  function Hit(c: Row, kind: Kind, now: string): Row {
    match kind
    case Connect => c.(count := Add64(c.count, 1), lastSeen := now)
    case Send(n) => c.(bytes := Add64(c.bytes, n), lastSeen := now)
  }

  function Apply(t: Table, e: FlowEvent): Table {
    t[e.Key() := Hit(GetOrCreate(t, e.Key(), e.netClass, e.srcZone, e.dstZone), e.kind, e.now)]
  }

  function ApplyAll(t: Table, es: seq<FlowEvent>): Table
    decreases |es|
  {
    if es == [] then t else Apply(ApplyAll(t, Front(es)), Last(es))
  }

  // ----- Group by key -----

  function Group(es: seq<FlowEvent>, key: string): seq<FlowEvent>
    decreases |es|
  {
    if es == [] then []
    else Group(Front(es), key) + if Last(es).Key() == key then [Last(es)] else []
  }

  function Connects(es: seq<FlowEvent>): nat
    decreases |es|
  {
    if es == [] then 0 else Connects(Front(es)) + if Last(es).kind.Connect? then 1 else 0
  }

  function Sent(e: FlowEvent): nat { if e.kind.Send? then e.kind.n else 0 }

  function SentTotal(es: seq<FlowEvent>): nat
    decreases |es|
  {
    if es == [] then 0 else SentTotal(Front(es)) + Sent(Last(es))
  }

  /** The last nonempty text, or the empty one. */
  function LastNonempty(zs: seq<string>): string
    decreases |zs|
  {
    if zs == [] then "" else if Last(zs) != "" then Last(zs) else LastNonempty(Front(zs))
  }

  function SrcZones(es: seq<FlowEvent>): seq<string> { seq(|es|, i requires 0 <= i < |es| => es[i].srcZone) }
  function DstZones(es: seq<FlowEvent>): seq<string> { seq(|es|, i requires 0 <= i < |es| => es[i].dstZone) }

  function Summary(g: seq<FlowEvent>): Row
    requires g != []
  {
    Row(Connects(g) % U64, SentTotal(g) % U64, Last(g).now, g[0].netClass,
        LastNonempty(SrcZones(g)), LastNonempty(DstZones(g)))
  }

  predicate Occurs(es: seq<FlowEvent>, key: string) { exists i :: 0 <= i < |es| && es[i].Key() == key }

  function Fresh(e: FlowEvent): Row { Row(0, 0, "", e.netClass, e.srcZone, e.dstZone) }

  function Bumped(c: Row, e: FlowEvent): Row {
    Hit(c.(srcZone := Sticky(e.srcZone, c.srcZone), dstZone := Sticky(e.dstZone, c.dstZone)), e.kind, e.now)
  }

  lemma ApplyAt(t: Table, e: FlowEvent, key: string)
    ensures key in Apply(t, e) <==> key in t || e.Key() == key
    ensures key in t && e.Key() != key ==> Apply(t, e)[key] == t[key]
    ensures e.Key() == key ==> Apply(t, e)[key] == Bumped(if key in t then t[key] else Fresh(e), e)
  {
  }

  lemma GroupStep(es: seq<FlowEvent>, key: string)
    requires es != []
    ensures Last(es).Key() == key ==> Group(es, key) == Group(Front(es), key) + [Last(es)]
    ensures Last(es).Key() != key ==> Group(es, key) == Group(Front(es), key)
  {
  }

  /** Main result: the incremental table is the grouping of its events. */
  lemma {:induction false} TableIsGroupBy(es: seq<FlowEvent>, key: string)
    ensures key in ApplyAll(map[], es) <==> Group(es, key) != []
    ensures key in ApplyAll(map[], es) <==> Occurs(es, key)
    ensures key in ApplyAll(map[], es) ==> ApplyAll(map[], es)[key] == Summary(Group(es, key))
    decreases |es|
  {
    if es != [] {
      TableIsGroupBy(Front(es), key);
      OccursSnoc(es, key);
      ApplyAt(ApplyAll(map[], Front(es)), Last(es), key);
      GroupStep(es, key);
      SummarySnoc(Group(Front(es), key), Last(es));
    }
  }

  lemma OccursSnoc(es: seq<FlowEvent>, key: string)
    requires es != []
    ensures Occurs(es, key) <==> Occurs(Front(es), key) || Last(es).Key() == key
  {
    if Occurs(Front(es), key) {
      var i :| 0 <= i < |Front(es)| && Front(es)[i].Key() == key;
      assert es[i].Key() == key;
    }
  }

  lemma CountsSnoc(g: seq<FlowEvent>, e: FlowEvent)
    ensures Connects(g + [e]) == Connects(g) + if e.kind.Connect? then 1 else 0
    ensures SentTotal(g + [e]) == SentTotal(g) + Sent(e)
    ensures LastNonempty(SrcZones(g + [e])) == Sticky(e.srcZone, LastNonempty(SrcZones(g)))
    ensures LastNonempty(DstZones(g + [e])) == Sticky(e.dstZone, LastNonempty(DstZones(g)))
  {
    assert Front(g + [e]) == g;
    assert Front(SrcZones(g + [e])) == SrcZones(g);
    assert Front(DstZones(g + [e])) == DstZones(g);
  }

  lemma SummarySnoc(g: seq<FlowEvent>, e: FlowEvent)
    ensures Summary(g + [e]) == Bumped(if g == [] then Fresh(e) else Summary(g), e)
  {
    CountsSnoc(g, e);
    AddMod(Connects(g), 1);
    AddMod(SentTotal(g), Sent(e));
    assert (g + [e])[0] == if g == [] then e else g[0];
    if g == [] {
      assert SrcZones(g) == [] && DstZones(g) == [];
    }
  }

  /** Events on different keys commute. */
  lemma ApplyCommutes(t: Table, d: FlowEvent, e: FlowEvent)
    requires d.Key() != e.Key()
    ensures Apply(Apply(t, d), e) == Apply(Apply(t, e), d)
  {
  }

  // ----- Sums over the table -----

  function BytesOf(r: Row): nat { r.bytes }
  function CrossBytesOf(r: Row): nat { if r.CrossAZ() then r.bytes else 0 }

  /** Sum over a finite map, in no particular order. */
  ghost function Sum(t: Table, f: Row -> nat): nat
    decreases |t|
  {
    if t == map[] then 0 else var k :| k in t; f(t[k]) + Sum(t - {k}, f)
  }

  lemma {:induction false} SumRemove(t: Table, k: string, f: Row -> nat)
    requires k in t
    ensures Sum(t, f) == f(t[k]) + Sum(t - {k}, f)
    decreases |t|
  {
    var j :| j in t && Sum(t, f) == f(t[j]) + Sum(t - {j}, f);
    if j != k {
      SumRemove(t - {j}, k, f);
      SumRemove(t - {k}, j, f);
      assert t - {j} - {k} == t - {k} - {j};
    }
  }

  function BytesAt(t: Table, k: string): nat { if k in t then t[k].bytes else 0 }

  lemma SumSplit(t: Table, k: string)
    ensures Sum(t, BytesOf) == Sum(t - {k}, BytesOf) + BytesAt(t, k)
  {
    if k in t { SumRemove(t, k, BytesOf); } else { assert t - {k} == t; }
  }

  lemma HitBytes(c: Row, kind: Kind, now: string)
    ensures Hit(c, kind, now).bytes == (c.bytes + if kind.Send? then kind.n else 0) % U64
  {
  }

  lemma ApplyElsewhere(t: Table, e: FlowEvent)
    ensures Apply(t, e) - {e.Key()} == t - {e.Key()}
  {
    hide FlowEvent.Key;
    hide GetOrCreate;
  }

  lemma RowAdds(t: Table, e: FlowEvent)
    ensures BytesAt(Apply(t, e), e.Key()) == (BytesAt(t, e.Key()) + Sent(e)) % U64
  {
    hide FlowEvent.Key;
    HitBytes(GetOrCreate(t, e.Key(), e.netClass, e.srcZone, e.dstZone), e.kind, e.now);
  }

  /** One event adds exactly its sent bytes to the table, modulo 2^64. */
  lemma ApplyAddsBytes(t: Table, e: FlowEvent)
    ensures Same64(Sum(Apply(t, e), BytesOf), Sum(t, BytesOf) + Sent(e))
  {
    var k := e.Key();
    var rest := Sum(t - {k}, BytesOf);
    SumSplit(t, k);
    SumSplit(Apply(t, e), k);
    ApplyElsewhere(t, e);
    RowAdds(t, e);
    hide Apply;
    hide BytesAt;
    AddMod(BytesAt(t, k) + Sent(e), rest);
  }
}
