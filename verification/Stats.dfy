/** The live aggregator: a map of mutable counters behind one lock
    (pkg/adapters/ebpf/stats.go). Each method is one locked section. */
module Stats {
  import opened Wrappers
  import opened Words
  import opened Text
  import opened Float64
  import opened FlowTable
  import opened Snapshots
  import History
  import LogFile

  /** What a dashboard is told before the first interval. */
  const NOTHING_YET := Snapshot("", 0, 0, 0, 0, 0.0, 0.0, [])

  class ConnStat {
    var count: u64
    var bytes: u64
    var lastSeen: string
    var netClass: string
    var srcZone: string
    var dstZone: string

    function Value(): Row
      reads this
    {
      Row(count, bytes, lastSeen, netClass, srcZone, dstZone)
    }

    constructor (netClass: string, srcZone: string, dstZone: string)
      ensures Value() == Row(0, 0, "", netClass, srcZone, dstZone)
    {
      count, bytes, lastSeen := 0, 0, "";
      this.netClass, this.srcZone, this.dstZone := netClass, srcZone, dstZone;
    }

    method Stick(srcZone: string, dstZone: string)
      modifies this
      ensures Value() == old(Value()).(srcZone := Sticky(srcZone, old(this.srcZone)),
                                       dstZone := Sticky(dstZone, old(this.dstZone)))
    {
      if srcZone != "" {
        this.srcZone := srcZone;
      }
      if dstZone != "" {
        this.dstZone := dstZone;
      }
    }

    method Hit(kind: Kind, now: string)
      modifies this
      ensures Value() == FlowTable.Hit(old(Value()), kind, now)
    {
      match kind {
        case Connect => count := Add64(count, 1);
        case Send(n) => bytes := Add64(bytes, n);
      }
      lastSeen := now;
    }
  }

  class Aggregator {
    const fp: Fp
    const rate: real
    var conns: map<string, ConnStat>
    var execCnt: u64
    var lastJSON: Option<Snapshot>

    /** No two keys share a counter. */
    ghost predicate Valid()
      reads this
    {
      forall j, k :: j in conns && k in conns && j != k ==> conns[j] != conns[k]
    }

    /** The counters as a value. */
    function Rows(): Table
      reads this, conns.Values
    {
      map k | k in conns :: conns[k].Value()
    }

    constructor (fp: Fp, rate: real)
      ensures Valid() && Rows() == map[] && execCnt == 0 && lastJSON == None
      ensures this.fp == fp && this.rate == rate
    {
      this.fp, this.rate := fp, rate;
      conns, execCnt, lastJSON := map[], 0, None;
    }

    method RecordExec()
      modifies this
      ensures execCnt == Add64(old(execCnt), 1) && conns == old(conns) && lastJSON == old(lastJSON)
    {
      execCnt := Add64(execCnt, 1);
    }

    method FindOrAdd(key: string, netClass: string, srcZone: string, dstZone: string) returns (c: ConnStat)
      requires Valid()
      modifies this
      ensures Valid() && key in conns && conns[key] == c && fresh(conns.Values - old(conns.Values))
      ensures var t := old(Rows());
              Rows() == t[key := if key in t then t[key] else Row(0, 0, "", netClass, srcZone, dstZone)]
      ensures execCnt == old(execCnt) && lastJSON == old(lastJSON)
    {
      if key in conns {
        c := conns[key];
      } else {
        c := new ConnStat(netClass, srcZone, dstZone);
        conns := conns[key := c];
      }
    }

    /** Writing one counter changes one row. */
    twostate lemma OneCell(key: string)
      requires old(Valid()) && key in old(conns) && conns == old(conns)
      requires forall k :: k in conns && k != key ==> conns[k].Value() == old(conns[k].Value())
      ensures Rows() == old(Rows())[key := conns[key].Value()]
    {
    }

    method GetOrCreate(key: string, netClass: string, srcZone: string, dstZone: string) returns (c: ConnStat)
      requires Valid()
      modifies this, conns.Values
      ensures Valid() && key in conns && conns[key] == c && fresh(conns.Values - old(conns.Values))
      ensures Rows() == old(Rows())[key := FlowTable.GetOrCreate(old(Rows()), key, netClass, srcZone, dstZone)]
      ensures execCnt == old(execCnt) && lastJSON == old(lastJSON)
    {
      c := FindOrAdd(key, netClass, srcZone, dstZone);
      label found:
      c.Stick(srcZone, dstZone);
      OneCell@found(key);
    }

    method Record(key: string, netClass: string, srcZone: string, dstZone: string, kind: Kind, now: string)
      requires Valid()
      modifies this, conns.Values
      ensures Valid() && fresh(conns.Values - old(conns.Values))
      ensures Rows() == old(Rows())[key := FlowTable.Hit(FlowTable.GetOrCreate(old(Rows()), key, netClass, srcZone, dstZone), kind, now)]
      ensures execCnt == old(execCnt) && lastJSON == old(lastJSON)
    {
      var c := GetOrCreate(key, netClass, srcZone, dstZone);
      label found:
      c.Hit(kind, now);
      OneCell@found(key);
    }

    method RecordTCP(src: string, dst: string, port: u16, netClass: string, srcZone: string, dstZone: string, now: string)
      requires Valid()
      modifies this, conns.Values
      ensures Valid() && fresh(conns.Values - old(conns.Values))
      ensures Rows() == Apply(old(Rows()), FlowEvent(src, dst, port, netClass, srcZone, dstZone, now, Connect))
      ensures execCnt == old(execCnt) && lastJSON == old(lastJSON)
    {
      Record(FlowKey.Key(src, dst, port), netClass, srcZone, dstZone, Connect, now);
    }

    method RecordBytes(src: string, dst: string, port: u16, netClass: string, srcZone: string, dstZone: string, n: u64,
                       now: string)
      requires Valid()
      modifies this, conns.Values
      ensures Valid() && fresh(conns.Values - old(conns.Values))
      ensures Rows() == Apply(old(Rows()), FlowEvent(src, dst, port, netClass, srcZone, dstZone, now, Send(n)))
      ensures execCnt == old(execCnt) && lastJSON == old(lastJSON)
    {
      Record(FlowKey.Key(src, dst, port), netClass, srcZone, dstZone, Send(n), now);
    }

    /** The keys in whatever order the map is walked. */
    method CollectKeys() returns (keys: seq<string>)
      ensures Enumerates(keys, conns.Keys)
    {
      keys := [];
      var rest := conns.Keys;
      while rest != {}
        invariant rest <= conns.Keys && Enumerates(keys, conns.Keys - rest)
        decreases |rest|
      {
        var k :| k in rest;
        keys := keys + [k];
        rest := rest - {k};
      }
    }

    /** The accumulating loop over the ordered keys. */
    method Summarize(keys: seq<string>, now: string) returns (snap: Snapshot)
      requires Ordered(Rows(), keys)
      ensures snap == Take(fp, rate, Rows(), execCnt, keys, now)
    {
      hide Row.CostUSD;
      hide Summed;
      hide Take;
      var t := Rows();
      var totalCost := 0.0;
      var totalBytes: u64, crossAZBytes: u64 := 0, 0;
      var flows := [];
      SummedStart(fp, rate, t, keys);
      for i := 0 to |keys|
        invariant Summed(fp, rate, t, keys, i, totalCost, totalBytes, crossAZBytes, flows)
      {
        var k := keys[i];
        var c := conns[k].Value();
        SummedStep(fp, rate, t, keys, i, totalCost, totalBytes, crossAZBytes, flows);
        totalCost := fp.Add(totalCost, c.CostUSD(fp, rate));
        totalBytes := Add64(totalBytes, c.bytes);
        if c.CrossAZ() {
          crossAZBytes := Add64(crossAZBytes, c.bytes);
        }
        flows := flows + [FlowOf(fp, rate, k, c)];
      }
      SummedEnd(fp, rate, t, keys, execCnt, now, totalCost, totalBytes, crossAZBytes, flows);
      snap := Snapshot(now, execCnt, |flows|, totalBytes, crossAZBytes, totalCost, rate, flows);
    }

    /** One interval: totals over the rows, then an empty table. */
    method SnapshotAndReset(now: string) returns (snap: Snapshot)
      modifies this
      ensures Valid() && conns == map[] && execCnt == 0 && lastJSON == old(lastJSON)
      ensures exists keys :: Ordered(old(Rows()), keys)
                             && snap == Take(fp, rate, old(Rows()), old(execCnt), keys, now)
    {
      hide Take;
      hide Ordered;
      hide Enumerates;
      var t := Rows();
      assert t.Keys == conns.Keys;
      var keys := CollectKeys();
      keys := SortKeys(t, keys);
      assert Rows() == t;
      snap := Summarize(keys, now);
      assert Rows() == t;
      execCnt := 0;
      conns := map[];
    }

    /** The snapshot last published, or the empty one that stands in before the first. */
    method LatestJSON() returns (s: Snapshot)
      ensures s == if lastJSON.Some? then lastJSON.value else Snapshot("", 0, 0, 0, 0, 0.0, 0.0, [])
    {
      if lastJSON.None? { return NOTHING_YET; }
      return lastJSON.value;
    }

    method Publish(snap: Snapshot)
      modifies this
      ensures lastJSON == Some(snap) && conns == old(conns) && execCnt == old(execCnt)
    {
      lastJSON := Some(snap);
    }

    /** One tick of the reporter with nothing in between; Pipeline interleaves its sections.
        A snapshot that fails to marshal is recorded but not published. */
    method Tick(history: History.HistoryStore?, now: string, marshalled: bool, landed: nat) returns (snap: Snapshot)
      requires Valid()
      modifies this, history, if history == null then null else history.file
      ensures Valid() && conns == map[] && execCnt == 0
      ensures lastJSON == if marshalled then Some(snap) else old(lastJSON)
      ensures exists keys :: Ordered(old(Rows()), keys)
                             && snap == Take(fp, rate, old(Rows()), old(execCnt), keys, now)
      ensures history != null ==>
                && history.View() == History.Absorb(history.fp, old(history.View()), History.RecordOf(snap))
                && history.file == old(history.file)
      ensures history != null && history.file != null ==>
                history.file.content == old(history.file.content)
                                        + LogFile.Landing(history.fp, LogFile.Write(History.RecordOf(snap), landed))
    {
      snap := SnapshotAndReset(now);
      if marshalled {
        Publish(snap);
      }
      if history != null {
        history.Record(snap, landed);
      }
    }

    /** The reporter's loop over what each select took: ticks, until it takes the stop event,
        after which nothing more is snapshot, published or recorded. With both ready select
        may take either, so ticks after the stop event was set are among the inputs. */
    method StartReporter(history: History.HistoryStore?, wakes: seq<Wake>) returns (snaps: seq<Snapshot>)
      requires Valid()
      modifies this, history, if history == null then null else history.file
      ensures Valid() && |snaps| == |Served(wakes)|
      ensures |snaps| <= |wakes| && (forall i :: 0 <= i < |snaps| ==> wakes[i].Ticked?)
      ensures |snaps| < |wakes| ==> wakes[|snaps|].Stopped?
      ensures lastJSON == Shown(old(lastJSON), Served(wakes), snaps)
      ensures Served(wakes) == [] ==> conns == old(conns)
      ensures Served(wakes) != [] ==> conns == map[] && execCnt == 0
      ensures history != null ==>
                && history.View() == History.AbsorbAll(history.fp, old(history.View()), History.Records(snaps))
                && history.file == old(history.file)
    {
      hide Take;
      hide Ordered;
      hide Served;
      hide Shown;
      hide History.Records;
      hide History.AbsorbAll;
      hide History.Absorb;
      NothingServed(lastJSON, wakes);
      if history != null {
        History.NothingAbsorbed(history.fp, history.View());
      }
      snaps := [];
      var i := 0;
      while i < |wakes| && wakes[i].Ticked?
        invariant i <= |wakes| && Valid() && |snaps| == i && forall j :: 0 <= j < i ==> wakes[j].Ticked?
        invariant Served(wakes) == wakes[..i] + Served(wakes[i..])
        invariant lastJSON == Shown(old(lastJSON), wakes[..i], snaps)
        invariant i == 0 ==> conns == old(conns)
        invariant i > 0 ==> conns == map[] && execCnt == 0
        invariant history != null ==>
                    && history.View() == History.AbsorbAll(history.fp, old(history.View()), History.Records(snaps))
                    && history.file == old(history.file)
      {
        var w := wakes[i];
        ServedNext(wakes, i);
        assert wakes[..i + 1] != [];
        var snap := Tick(history, w.now, w.marshalled, w.landed);
        if history != null {
          History.AbsorbNext(history.fp, old(history.View()), snaps, snap);
        }
        ShownNext(old(lastJSON), wakes, i, snaps, snap);
        snaps := snaps + [snap];
        i := i + 1;
      }
      ServedAll(wakes, i);
    }
  }

  /** What the select of the reporter's loop took. */
  datatype Wake = Stopped | Ticked(now: string, marshalled: bool, landed: nat)

  /** The ticks taken before the stop event is. */
  function Served(wakes: seq<Wake>): seq<Wake> {
    if wakes == [] || wakes[0].Stopped? then [] else [wakes[0]] + Served(wakes[1..])
  }

  /** The last snapshot that was marshalled, or what was shown before. */
  function Shown(latest: Option<Snapshot>, ticks: seq<Wake>, snaps: seq<Snapshot>): Option<Snapshot>
    requires |ticks| == |snaps|
    decreases |ticks|
  {
    if ticks == [] then latest
    else if Last(ticks).Ticked? && Last(ticks).marshalled then Some(Last(snaps))
    else Shown(latest, Front(ticks), Front(snaps))
  }

  lemma NothingServed(latest: Option<Snapshot>, wakes: seq<Wake>)
    ensures Served(wakes) == wakes[..0] + Served(wakes[0..]) && Shown(latest, wakes[..0], []) == latest
  {
    assert wakes[0..] == wakes && wakes[..0] == [];
  }

  lemma ServedAll(wakes: seq<Wake>, i: nat)
    requires i <= |wakes| && (i == |wakes| || wakes[i].Stopped?) && Served(wakes) == wakes[..i] + Served(wakes[i..])
    ensures Served(wakes) == wakes[..i]
  {
    assert Served(wakes[i..]) == [];
  }

  predicate Marshals(w: Wake) { w.Ticked? && w.marshalled }

  /** What is shown is the snapshot of the last tick that marshalled. */
  lemma {:induction false} ShownIsLast(latest: Option<Snapshot>, ticks: seq<Wake>, snaps: seq<Snapshot>)
    requires |ticks| == |snaps|
    ensures if forall i :: 0 <= i < |ticks| ==> !Marshals(ticks[i]) then Shown(latest, ticks, snaps) == latest
            else exists i :: && 0 <= i < |ticks| && Marshals(ticks[i]) && Shown(latest, ticks, snaps) == Some(snaps[i])
                             && forall j :: i < j < |ticks| ==> !Marshals(ticks[j])
    decreases |ticks|
  {
    if ticks != [] && !Marshals(Last(ticks)) {
      ShownIsLast(latest, Front(ticks), Front(snaps));
      if k :| 0 <= k < |ticks| && Marshals(ticks[k]) {
        assert Marshals(Front(ticks)[k]);
        var i :| && 0 <= i < |Front(ticks)| && Marshals(Front(ticks)[i])
                 && Shown(latest, ticks, snaps) == Some(Front(snaps)[i])
                 && forall j :: i < j < |Front(ticks)| ==> !Marshals(Front(ticks)[j]);
        assert Marshals(ticks[i]) && snaps[i] == Front(snaps)[i];
        forall j | i < j < |ticks| ensures !Marshals(ticks[j]) {
          if j < |ticks| - 1 { assert !Marshals(Front(ticks)[j]); }
        }
      } else {
        assert forall i :: 0 <= i < |Front(ticks)| ==> Front(ticks)[i] == ticks[i];
      }
    }
  }

  lemma ServedNext(wakes: seq<Wake>, i: nat)
    requires i < |wakes| && wakes[i].Ticked? && Served(wakes) == wakes[..i] + Served(wakes[i..])
    ensures Served(wakes) == wakes[..i + 1] + Served(wakes[i + 1..])
  {
    assert wakes[i..][1..] == wakes[i + 1..];
    Regroup(wakes, i, Served(wakes[i + 1..]));
  }

  lemma Regroup(wakes: seq<Wake>, i: nat, rest: seq<Wake>)
    requires i < |wakes|
    ensures wakes[..i] + ([wakes[i]] + rest) == wakes[..i + 1] + rest
  {
  }

  lemma ShownNext(latest: Option<Snapshot>, wakes: seq<Wake>, i: nat, snaps: seq<Snapshot>, snap: Snapshot)
    requires i < |wakes| && wakes[i].Ticked? && |snaps| == i
    ensures Shown(latest, wakes[..i + 1], snaps + [snap])
         == if wakes[i].marshalled then Some(snap) else Shown(latest, wakes[..i], snaps)
  {
    assert Front(wakes[..i + 1]) == wakes[..i] && Front(snaps + [snap]) == snaps;
  }

  /** sort.Slice by bytes, largest first; the order of ties is its own business. */
  method SortKeys(t: Table, keys: seq<string>) returns (sorted: seq<string>)
    requires Enumerates(keys, t.Keys)
    ensures Ordered(t, sorted)
  {
    sorted := [];
    ghost var done: set<string> := {};
    for i := 0 to |keys|
      invariant Distinct(sorted) && Within(t, sorted) && Descending(t, sorted)
      invariant forall k :: k in sorted <==> k in keys[..i]
    {
      var j := 0;
      while j < |sorted| && t[sorted[j]].bytes >= t[keys[i]].bytes
        invariant j <= |sorted|
        invariant forall m :: 0 <= m < j ==> t[sorted[m]].bytes >= t[keys[i]].bytes
      {
        j := j + 1;
      }
      InsertKeepsOrder(t, sorted, keys[i], j);
      sorted := sorted[..j] + [keys[i]] + sorted[j..];
    }
  }

  /** The accumulators after the first i keys. */
  ghost predicate Summed(fp: Fp, rate: real, t: Table, keys: seq<string>, i: nat,
                         cost: real, bytes: u64, cross: u64, flows: seq<FlowSummary>)
    requires Within(t, keys) && i <= |keys|
  {
    && cost == Cost(fp, rate, t, keys[..i])
    && bytes == Accumulated(t, keys[..i], BytesOf)
    && cross == Accumulated(t, keys[..i], CrossBytesOf)
    && flows == Flows(fp, rate, t, keys[..i])
  }

  lemma SummedStart(fp: Fp, rate: real, t: Table, keys: seq<string>)
    requires Within(t, keys)
    ensures Summed(fp, rate, t, keys, 0, 0.0, 0, 0, [])
  {
    assert keys[..0] == [];
  }

  lemma SummedStep(fp: Fp, rate: real, t: Table, keys: seq<string>, i: nat,
                   cost: real, bytes: u64, cross: u64, flows: seq<FlowSummary>)
    requires Within(t, keys) && i < |keys| && Summed(fp, rate, t, keys, i, cost, bytes, cross, flows)
    ensures var c := t[keys[i]];
            Summed(fp, rate, t, keys, i + 1, fp.Add(cost, c.CostUSD(fp, rate)), Add64(bytes, c.bytes),
                   if c.CrossAZ() then Add64(cross, c.bytes) else cross, flows + [FlowOf(fp, rate, keys[i], c)])
  {
    hide FlowOf;
    hide Row.CostUSD;
    assert Front(keys[..i + 1]) == keys[..i] && Last(keys[..i + 1]) == keys[i];
  }

  lemma SummedEnd(fp: Fp, rate: real, t: Table, keys: seq<string>, execs: u64, now: string,
                  cost: real, bytes: u64, cross: u64, flows: seq<FlowSummary>)
    requires Ordered(t, keys) && Summed(fp, rate, t, keys, |keys|, cost, bytes, cross, flows)
    ensures Take(fp, rate, t, execs, keys, now) == Snapshot(now, execs, |flows|, bytes, cross, cost, rate, flows)
  {
    assert keys[..|keys|] == keys;
  }

  lemma Inserted(s: seq<string>, k: string, j: nat, i: nat)
    requires j <= |s| && i <= |s|
    ensures (s[..j] + [k] + s[j..])[i] == if i < j then s[i] else if i == j then k else s[i - 1]
  {
  }

  lemma InsertedMembers(s: seq<string>, k: string, j: nat)
    requires j <= |s|
    ensures forall x :: x in s[..j] + [k] + s[j..] <==> x in s || x == k
  {
    assert s == s[..j] + s[j..];
  }

  lemma InsertKeepsOrder(t: Table, s: seq<string>, k: string, j: nat)
    requires Distinct(s) && Within(t, s) && Descending(t, s) && k in t && k !in s && j <= |s|
    requires forall m :: 0 <= m < j ==> t[s[m]].bytes >= t[k].bytes
    requires j < |s| ==> t[s[j]].bytes < t[k].bytes
    ensures var r := s[..j] + [k] + s[j..];
            Distinct(r) && Within(t, r) && Descending(t, r) && forall x :: x in r <==> x in s || x == k
  {
    var r := s[..j] + [k] + s[j..];
    InsertedMembers(s, k, j);
    forall a, b | 0 <= a < b < |r| ensures r[a] != r[b] && t[r[a]].bytes >= t[r[b]].bytes {
      Inserted(s, k, j, a);
      Inserted(s, k, j, b);
    }
  }
}
