/** One reporting interval taken from the table: its totals against the sums
    over the map, and its cost against exact arithmetic
    (pkg/adapters/ebpf/stats.go). */
module Snapshots {
  import opened Words
  import opened Text
  import opened Float64
  import opened FlowTable
  import opened Rounding

  datatype FlowSummary = FlowSummary(
    flow: string, netClass: string, count: u64, bytes: u64, lastSeen: string,
    srcZone: string, dstZone: string, crossAZ: bool, costUSD: real)

  datatype Snapshot = Snapshot(
    timestamp: string, execEvents: u64, flowCount: nat,
    totalBytes: u64, crossAZBytes: u64, totalCostUSD: real, costPerGB: real,
    flows: seq<FlowSummary>)

  predicate Distinct(keys: seq<string>) { forall i, j :: 0 <= i < j < |keys| ==> keys[i] != keys[j] }

  predicate Within(t: Table, keys: seq<string>) { forall i :: 0 <= i < |keys| ==> keys[i] in t }

  predicate Descending(t: Table, keys: seq<string>)
    requires Within(t, keys)
  {
    forall i, j :: 0 <= i < j < |keys| ==> t[keys[i]].bytes >= t[keys[j]].bytes
  }

  /** What collecting the keys in map order and sort.Slice may leave: every key once,
      in non-increasing byte order, ties in any order. */
  predicate Ordered(t: Table, keys: seq<string>) {
    Distinct(keys) && Within(t, keys) && (forall k :: k in t ==> k in keys) && Descending(t, keys)
  }

  function FlowOf(fp: Fp, rate: real, key: string, c: Row): FlowSummary {
    FlowSummary(key, c.netClass, c.count, c.bytes, c.lastSeen, c.srcZone, c.dstZone, c.CrossAZ(), c.CostUSD(fp, rate))
  }

  function Flows(fp: Fp, rate: real, t: Table, keys: seq<string>): (fs: seq<FlowSummary>)
    requires Within(t, keys)
    ensures |fs| == |keys|
  {
    seq(|keys|, i requires 0 <= i < |keys| => FlowOf(fp, rate, keys[i], t[keys[i]]))
  }

  /** A uint64 accumulator over the keys, left to right. */
  function Accumulated(t: Table, keys: seq<string>, f: Row -> nat): u64
    requires Within(t, keys)
    decreases |keys|
  {
    if keys == [] then 0 else (Accumulated(t, Front(keys), f) + f(t[Last(keys)])) % U64
  }

  /** The float accumulator over the keys, left to right. */
  function Cost(fp: Fp, rate: real, t: Table, keys: seq<string>): real
    requires Within(t, keys)
    decreases |keys|
  {
    if keys == [] then 0.0 else fp.Add(Cost(fp, rate, t, Front(keys)), t[Last(keys)].CostUSD(fp, rate))
  }

  function Take(fp: Fp, rate: real, t: Table, execs: u64, keys: seq<string>, now: string): Snapshot
    requires Ordered(t, keys)
  {
    Snapshot(now, execs, |keys|, Accumulated(t, keys, BytesOf), Accumulated(t, keys, CrossBytesOf),
             Cost(fp, rate, t, keys), rate, Flows(fp, rate, t, keys))
  }

  // ----- Totals -----

  ghost function SumAlong(t: Table, keys: seq<string>, f: Row -> nat): nat
    requires Within(t, keys)
    decreases |keys|
  {
    if keys == [] then 0 else SumAlong(t, Front(keys), f) + f(t[Last(keys)])
  }

  lemma {:induction false} AccumulatedWraps(t: Table, keys: seq<string>, f: Row -> nat)
    requires Within(t, keys)
    ensures Accumulated(t, keys, f) == SumAlong(t, keys, f) % U64
    decreases |keys|
  {
    if keys != [] {
      AccumulatedWraps(t, Front(keys), f);
      AddMod(SumAlong(t, Front(keys), f), f(t[Last(keys)]));
    }
  }

  lemma {:induction false} SameRows(t: Table, t': Table, keys: seq<string>, f: Row -> nat)
    requires Within(t, keys) && Within(t', keys)
    requires forall i :: 0 <= i < |keys| ==> t[keys[i]] == t'[keys[i]]
    ensures SumAlong(t, keys, f) == SumAlong(t', keys, f)
    decreases |keys|
  {
    if keys != [] {
      SameRows(t, t', Front(keys), f);
    }
  }

  /** Every key once, in any order. */
  ghost predicate Enumerates(keys: seq<string>, ks: set<string>) {
    Distinct(keys) && forall k :: k in keys <==> k in ks
  }

  lemma EnumeratesFront(keys: seq<string>, ks: set<string>)
    requires Enumerates(keys, ks) && keys != []
    ensures Enumerates(Front(keys), ks - {Last(keys)})
  {
    assert Last(keys) in keys;
    forall k ensures k in Front(keys) <==> k in ks - {Last(keys)} {
      if k in keys && k != Last(keys) {
        var i :| 0 <= i < |keys| && keys[i] == k;
        assert Front(keys)[i] == k;
      }
    }
  }

  lemma {:induction false} SumAnyOrder(t: Table, keys: seq<string>, f: Row -> nat)
    requires Enumerates(keys, t.Keys)
    ensures SumAlong(t, keys, f) == Sum(t, f)
    decreases |keys|
  {
    if keys == [] {
      assert t == map[];
    } else {
      var k := Last(keys);
      assert k in keys;
      EnumeratesFront(keys, t.Keys);
      assert (t - {k}).Keys == t.Keys - {k};
      SumAnyOrder(t - {k}, Front(keys), f);
      SameRows(t, t - {k}, Front(keys), f);
      SumRemove(t, k, f);
    }
  }

  lemma {:induction false} EnumeratesCount(keys: seq<string>, ks: set<string>)
    requires Enumerates(keys, ks)
    ensures |ks| == |keys|
    decreases |keys|
  {
    if keys == [] {
      assert ks == {};
    } else {
      EnumeratesFront(keys, ks);
      EnumeratesCount(Front(keys), ks - {Last(keys)});
      assert Last(keys) in keys;
      assert ks == (ks - {Last(keys)}) + {Last(keys)};
    }
  }

  lemma {:induction false} CrossAtMostAll(t: Table)
    ensures Sum(t, CrossBytesOf) <= Sum(t, BytesOf)
    decreases |t|
  {
    if t != map[] {
      var k :| k in t;
      SumRemove(t, k, CrossBytesOf);
      SumRemove(t, k, BytesOf);
      CrossAtMostAll(t - {k});
    }
  }

  lemma TotalsAreSums(t: Table, keys: seq<string>)
    requires Ordered(t, keys)
    ensures |keys| == |t|
    ensures Accumulated(t, keys, BytesOf) == Sum(t, BytesOf) % U64
    ensures Accumulated(t, keys, CrossBytesOf) == Sum(t, CrossBytesOf) % U64
  {
    AccumulatedWraps(t, keys, BytesOf);
    AccumulatedWraps(t, keys, CrossBytesOf);
    SumAnyOrder(t, keys, BytesOf);
    SumAnyOrder(t, keys, CrossBytesOf);
    EnumeratesCount(keys, t.Keys);
  }

  /** Whatever the map iteration order, the totals are the sums over the map. */
  lemma SnapshotTotals(fp: Fp, rate: real, t: Table, execs: u64, keys: seq<string>, now: string)
    requires Ordered(t, keys)
    ensures var s := Take(fp, rate, t, execs, keys, now);
            && s.timestamp == now && s.execEvents == execs && s.costPerGB == rate
            && s.flowCount == |t|
            && s.totalBytes == Sum(t, BytesOf) % U64
            && s.crossAZBytes == Sum(t, CrossBytesOf) % U64
            && (Sum(t, BytesOf) < U64 ==> s.crossAZBytes <= s.totalBytes)
  {
    hide Flows;
    hide Cost;
    hide Accumulated;
    hide Ordered;
    TotalsAreSums(t, keys);
    CrossAtMostAll(t);
  }

  /** The flow line says of a row what the dashboard shows: its counters, both zones, and
      whether two known zones differ. */
  predicate Shows(f: FlowSummary, key: string, c: Row) {
    && f.flow == key && f.count == c.count && f.bytes == c.bytes && f.lastSeen == c.lastSeen
    && f.netClass == c.netClass && f.srcZone == c.srcZone && f.dstZone == c.dstZone
    && (f.crossAZ <==> c.srcZone != "" && c.dstZone != "" && c.srcZone != c.dstZone)
    && (!f.crossAZ ==> f.costUSD == 0.0)
  }

  /** The flows list every row of the table once, largest first. */
  lemma SnapshotFlows(fp: Fp, rate: real, t: Table, execs: u64, keys: seq<string>, now: string)
    requires Ordered(t, keys)
    ensures var flows := Take(fp, rate, t, execs, keys, now).flows;
            && |flows| == |t|
            && (forall i, j :: 0 <= i < j < |flows| ==> flows[i].flow != flows[j].flow && flows[i].bytes >= flows[j].bytes)
            && (forall k :: k in t ==> exists i :: 0 <= i < |flows| && Shows(flows[i], k, t[k]))
  {
    EnumeratesCount(keys, t.Keys);
    var flows := Take(fp, rate, t, execs, keys, now).flows;
    forall k | k in t ensures exists i :: 0 <= i < |flows| && Shows(flows[i], k, t[k]) {
      var i :| 0 <= i < |keys| && keys[i] == k;
      assert flows[i] == FlowOf(fp, rate, k, t[k]);
      assert Shows(flows[i], k, t[k]);
    }
  }

  // ----- Cost -----

  /** The documented price without rounding. */
  function ExactCost(rate: real, bytes: nat): real { Times(bytes as real / 1000000000.0, rate) }

  /** The format holds every count below 2^64, its quotient by 10^9 and its price, with n
      roundings to spare. This can be checked from the rate and the number of flows. */
  ghost predicate Fits(f: Format, rate: real, n: nat) {
    && Spans(f, 1.0, U64 as real, n)
    && Spans(f, 1.0 / 1000000000.0, U64 as real / 1000000000.0, n)
    && (rate > 0.0 ==> Spans(f, ExactCost(rate, 1), ExactCost(rate, U64), n))
  }

  lemma ExactCostMonotone(rate: real, a: nat, b: nat)
    requires rate >= 0.0 && a <= b
    ensures 0.0 <= ExactCost(rate, a) <= ExactCost(rate, b)
    ensures rate == 0.0 || a == 0 ==> ExactCost(rate, a) == 0.0
  {
    MulLe(0.0, a as real / 1000000000.0, rate);
    MulLe(a as real / 1000000000.0, b as real / 1000000000.0, rate);
  }

  lemma BytesSafe(f: Format, bytes: nat, n: nat)
    requires 0.0 <= f.u <= 1.0 && bytes < U64 && Spans(f, 1.0, U64 as real, n)
    ensures Safe(f, bytes as real, n)
  {
    if bytes > 0 { SpansSafe(f, 1.0, bytes as real, U64 as real, n); }
  }

  lemma GigabytesSafe(f: Format, bytes: nat, n: nat)
    requires 0.0 <= f.u <= 1.0 && bytes < U64
    requires Spans(f, 1.0 / 1000000000.0, U64 as real / 1000000000.0, n)
    ensures Safe(f, bytes as real / 1000000000.0, n)
  {
    if bytes > 0 {
      hide Spans;
      SpansSafe(f, 1.0 / 1000000000.0, bytes as real / 1000000000.0, U64 as real / 1000000000.0, n);
    }
  }

  lemma PriceSafe(f: Format, rate: real, bytes: nat, n: nat)
    requires 0.0 <= f.u <= 1.0 && rate >= 0.0 && bytes < U64
    requires rate > 0.0 ==> Spans(f, ExactCost(rate, 1), ExactCost(rate, U64), n)
    ensures Safe(f, ExactCost(rate, bytes), n)
  {
    hide ExactCost;
    hide Spans;
    ExactCostMonotone(rate, bytes, U64);
    if bytes > 0 {
      ExactCostMonotone(rate, 1, bytes);
      if rate > 0.0 { SpansSafe(f, ExactCost(rate, 1), ExactCost(rate, bytes), ExactCost(rate, U64), n); }
    }
  }

  /** One flow: conversion, division and multiplication each round once. */
  lemma FlowCostNear(fp: Fp, rate: real, f: Format, c: Row, n: nat)
    requires Rounds(fp, f) && rate >= 0.0 && n >= 3 && Fits(f, rate, n)
    ensures Near(c.CostUSD(fp, rate), ExactCost(rate, CrossBytesOf(c)), f.u, 3)
  {
    assert 0.0 <= f.u <= 1.0;
    hide Near;
    hide Rounds;
    hide Times;
    hide Safe;
    hide Spans;
    if c.CrossAZ() {
      BytesSafe(f, c.bytes, n);
      GigabytesSafe(f, c.bytes, n);
      PriceSafe(f, rate, c.bytes, n);
      ThreeRoundings(fp, f, c.bytes as real, rate, n);
    } else {
      ExactCostMonotone(rate, 0, 0);
      NearZero(0.0, f.u, 3);
    }
  }

  lemma ExactCostAdds(rate: real, a: nat, b: nat)
    requires rate >= 0.0
    ensures ExactCost(rate, a + b) == ExactCost(rate, a) + ExactCost(rate, b)
    ensures ExactCost(rate, a) >= 0.0
  {
    MulNonneg(a as real / 1000000000.0, rate);
    Distribute(a as real / 1000000000.0, b as real / 1000000000.0, rate);
  }

  lemma {:induction false} CostNear(fp: Fp, rate: real, f: Format, t: Table, keys: seq<string>, n: nat)
    requires Rounds(fp, f) && rate >= 0.0 && Within(t, keys)
    requires |keys| + 3 <= n && Fits(f, rate, n) && SumAlong(t, keys, CrossBytesOf) < U64
    ensures Near(Cost(fp, rate, t, keys), ExactCost(rate, SumAlong(t, keys, CrossBytesOf)), f.u, |keys| + 3)
    decreases |keys|
  {
    assert 0.0 <= f.u <= 1.0;
    hide Near;
    hide Rounds;
    hide ExactCost;
    hide Spans;
    hide Safe;
    if keys == [] {
      ExactCostMonotone(rate, 0, 0);
      NearZero(0.0, f.u, 3);
    } else {
      var k, c, before := |keys| + 2, t[Last(keys)], SumAlong(t, Front(keys), CrossBytesOf);
      var x, y := Cost(fp, rate, t, Front(keys)), c.CostUSD(fp, rate);
      var a, b := ExactCost(rate, before), ExactCost(rate, CrossBytesOf(c));
      CostNear(fp, rate, f, t, Front(keys), n);
      FlowCostNear(fp, rate, f, c, n);
      ExactCostAdds(rate, before, CrossBytesOf(c));
      ExactCostAdds(rate, CrossBytesOf(c), 0);
      WidenNear(y, b, f.u, 3, k);
      AddNear(x, y, a, b, f.u, k);
      PriceSafe(f, rate, before + CrossBytesOf(c), n);
      RoundNear(fp, f, x + y, a + b, k, n);
    }
  }

  lemma CostAlong(fp: Fp, rate: real, f: Format, t: Table, keys: seq<string>)
    requires Within(t, keys) && Rounds(fp, f) && rate >= 0.0
    requires SumAlong(t, keys, CrossBytesOf) < U64 && Fits(f, rate, |keys| + 3)
    ensures var exact := ExactCost(rate, SumAlong(t, keys, CrossBytesOf));
            RelativeError(Cost(fp, rate, t, keys), exact, RealPow(1.0 + f.u, |keys| + 3) - 1.0)
  {
    assert 0.0 <= f.u <= 1.0;
    hide *;
    var exact := ExactCost(rate, SumAlong(t, keys, CrossBytesOf));
    CostNear(fp, rate, f, t, keys, |keys| + 3);
    ExactCostAdds(rate, SumAlong(t, keys, CrossBytesOf), 0);
    NearError(Cost(fp, rate, t, keys), exact, f.u, |keys| + 3);
  }

  lemma CostBound(fp: Fp, rate: real, f: Format, t: Table, keys: seq<string>)
    requires Ordered(t, keys) && Rounds(fp, f) && rate >= 0.0
    requires Sum(t, CrossBytesOf) < U64 && Fits(f, rate, |keys| + 3)
    ensures var exact := ExactCost(rate, Sum(t, CrossBytesOf));
            RelativeError(Cost(fp, rate, t, keys), exact, RealPow(1.0 + f.u, |keys| + 3) - 1.0)
  {
    assert Within(t, keys) && Enumerates(keys, t.Keys);
    hide *;
    SumAnyOrder(t, keys, CrossBytesOf);
    CostAlong(fp, rate, f, t, keys);
  }

  /** Main result: n flows, summed in whatever order, cost within (1+u)^(n+3) - 1 of
      rate * CrossAZBytes / 10^9, relatively, in any format that fits the rate. */
  lemma CostErrorBound(fp: Fp, rate: real, f: Format, t: Table, execs: u64, keys: seq<string>, now: string)
    requires Ordered(t, keys) && Rounds(fp, f) && rate >= 0.0
    requires Sum(t, CrossBytesOf) < U64 && Fits(f, rate, |t| + 3)
    ensures var s := Take(fp, rate, t, execs, keys, now);
            RelativeError(s.totalCostUSD, ExactCost(rate, s.crossAZBytes), RealPow(1.0 + f.u, s.flowCount + 3) - 1.0)
  {
    hide RelativeError;
    hide Rounds;
    hide ExactCost;
    hide RealPow;
    hide Flows;
    hide Cost;
    hide Accumulated;
    hide Ordered;
    hide Fits;
    TotalsAreSums(t, keys);
    CostBound(fp, rate, f, t, keys);
  }
}
