/** What the counters of a run stand for, told from the actions and the snapshots: exec
    events, cross-AZ bytes, cumulative cost, and the ring as a dashboard reads it. */
module Accounts {
  import opened Wrappers
  import opened Words
  import opened Text
  import opened Float64
  import opened Codec
  import opened LogFile
  import opened FlowTable
  import opened Snapshots
  import opened History
  import opened Pipeline
  import Informer
  import Reader
  import Wire

  // ----- Exec events -----

  /** EXEC samples since the last reset, and in each interval since the last start. */
  datatype Execs = Execs(live: nat, taken: seq<nat>)

  /** Counted from the bytes of the samples: the type is the 41st byte. */
  ghost function ExecsIn(cfg: Config, s: State, acts: seq<Action>): Execs
    decreases |acts|
  {
    if acts == [] then Execs(0, []) else
    var before := ExecsIn(cfg, s, Front(acts));
    match Last(acts)
    case Sample(raw, _, _) => if |raw| >= 48 && raw[40] == 0 then before.(live := before.live + 1) else before
    case Reset(_, _) =>
      if |Run(cfg, s, acts).snaps| > |Run(cfg, s, Front(acts)).snaps| then Execs(0, before.taken + [before.live]) else before
    case Restart(_) => Execs(0, [])
    case _ => before
  }

  ghost predicate ExecsInv(s: State, x: Execs) {
    && s.execs == x.live % U64
    && |x.taken| == |s.snaps|
    && forall n :: 0 <= n < |s.snaps| ==> s.snaps[n].execEvents == x.taken[n] % U64
  }

  lemma SampleExecs(s: State, raw: seq<Byte>, at: seq<nat>, now: string, x: Execs)
    requires ExecsInv(s, x)
    ensures ExecsInv(SampleStep(s, raw, at, now), if |raw| >= 48 && raw[40] == 0 then x.(live := x.live + 1) else x)
  {
    var vs := if Admissible(s, at) then ViewsAt(s, at) else Reader.Steady(s.cache);
    Reader.RawDispatch(raw, vs, now);
    AddMod(x.live, 1);
    hide Reader.Dispatch;
    hide Wire.Decode;
    hide Apply;
    hide Admissible;
  }

  lemma ResetExecs(cfg: Config, s: State, order: seq<string>, now: string, x: Execs)
    requires ExecsInv(s, x)
    ensures var s' := ResetStep(cfg, s, order, now);
            ExecsInv(s', if |s'.snaps| > |s.snaps| then Execs(0, x.taken + [x.live]) else x)
  {
    hide Ordered;
    hide Flows;
    hide Cost;
    hide Accumulated;
    hide Sum;
  }

  /** In every reachable state the exec counter is the number of EXEC samples since the last
      reset, and each snapshot has the number of those of its own interval, mod 2^64. */
  lemma {:induction false} RunExecs(cfg: Config, content: string, now: string, acts: seq<Action>)
    ensures var s, x := Run(cfg, Init(cfg, content, now), acts), ExecsIn(cfg, Init(cfg, content, now), acts);
            && s.execs == x.live % U64
            && |x.taken| == |s.snaps|
            && forall n :: 0 <= n < |s.snaps| ==> s.snaps[n].execEvents == x.taken[n] % U64
    decreases |acts|
  {
    hide SampleStep;
    hide ResetStep;
    hide Absorb;
    hide Opened;
    hide Informer.Handle;
    if acts != [] {
      RunExecs(cfg, content, now, Front(acts));
      var s, x := Run(cfg, Init(cfg, content, now), Front(acts)), ExecsIn(cfg, Init(cfg, content, now), Front(acts));
      match Last(acts)
      case Sample(raw, at, t) => SampleExecs(s, raw, at, t, x);
      case Reset(order, t) => ResetExecs(cfg, s, order, t, x);
      case _ =>
    }
  }

  // ----- History told from the snapshots -----

  function BytesOfSnaps(snaps: seq<Snapshot>): nat
    decreases |snaps|
  {
    if snaps == [] then 0 else BytesOfSnaps(Front(snaps)) + Last(snaps).totalBytes
  }

  function CrossOfSnaps(snaps: seq<Snapshot>): nat
    decreases |snaps|
  {
    if snaps == [] then 0 else CrossOfSnaps(Front(snaps)) + Last(snaps).crossAZBytes
  }

  /** Float addition of the costs onto `cost`, left to right. */
  function CostOfSnaps(fp: Fp, cost: real, snaps: seq<Snapshot>): real
    decreases |snaps|
  {
    if snaps == [] then cost else fp.Add(CostOfSnaps(fp, cost, Front(snaps)), Last(snaps).totalCostUSD)
  }

  lemma {:induction false} AbsorbSnaps(fp: Fp, t: Totals, snaps: seq<Snapshot>)
    ensures var t' := AbsorbAll(fp, t, Records(snaps));
            && t'.bytes == (t.bytes + BytesOfSnaps(snaps)) % U64
            && t'.crossAZ == (t.crossAZ + CrossOfSnaps(snaps)) % U64
            && t'.cost == CostOfSnaps(fp, t.cost, snaps)
    decreases |snaps|
  {
    if snaps == [] {
      assert Records(snaps) == [];
    } else {
      AbsorbSnaps(fp, t, Front(snaps));
      assert snaps == Front(snaps) + [Last(snaps)];
      AbsorbNext(fp, t, Front(snaps), Last(snaps));
      hide AbsorbAll;
      hide Records;
      OneAbsorbed(fp, t, AbsorbAll(fp, t, Records(Front(snaps))), BytesOfSnaps(Front(snaps)), CrossOfSnaps(Front(snaps)), Last(snaps));
      hide Absorb;
      hide RecordOf;
    }
  }

  lemma OneAbsorbed(fp: Fp, t: Totals, u: Totals, bytes: nat, cross: nat, p: Snapshot)
    requires u.bytes == (t.bytes + bytes) % U64 && u.crossAZ == (t.crossAZ + cross) % U64
    ensures var t' := Absorb(fp, u, RecordOf(p));
            && t'.bytes == (t.bytes + (bytes + p.totalBytes)) % U64
            && t'.crossAZ == (t.crossAZ + (cross + p.crossAZBytes)) % U64
            && t'.cost == fp.Add(u.cost, p.totalCostUSD)
  {
    hide Push;
    AddMod(t.bytes + bytes, p.totalBytes);
    AddMod(t.crossAZ + cross, p.crossAZBytes);
  }

  /** A ring entry as the dashboard's chart reads it: the figures of one snapshot. */
  predicate Charts(r: IntervalRecord, p: Snapshot) {
    && r.timestamp == p.timestamp && r.totalBytes == p.totalBytes && r.crossAZBytes == p.crossAZBytes
    && r.totalCostUSD == p.totalCostUSD && r.execEvents == p.execEvents && r.uniqueFlows == p.flowCount
  }

  /** The i-th of these snapshots is in the ring, counted from its end. */
  predicate InRing(ring: seq<IntervalRecord>, snaps: seq<Snapshot>, i: nat)
    requires i < |snaps|
  {
    |ring| >= |snaps| - i && Charts(ring[|ring| - (|snaps| - i)], snaps[i])
  }

  lemma RingCharts(rs: seq<IntervalRecord>, snaps: seq<Snapshot>, i: nat)
    requires i < |snaps| <= i + 360
    ensures InRing(LastOnes(rs + Records(snaps)), snaps, i)
  {
    var all := rs + Records(snaps);
    assert all[|rs| + i] == RecordOf(snaps[i]);
  }

  /** Main result: in every reachable state the totals are what was read back at the last
      start with the snapshots recorded since added up: bytes and cross-AZ bytes modulo
      2^64, costs by float addition in order; and each of the last 360 of them is in the
      ring with its own figures. */
  lemma HistoryIsSnapshots(cfg: Config, content: string, now: string, acts: seq<Action>)
    ensures var s := Run(cfg, Init(cfg, content, now), acts);
            && s.recorded <= |s.snaps|
            && var base, snaps := AbsorbAll(cfg.fp, EMPTY, s.replayed), s.snaps[..s.recorded];
               && s.totals.bytes == (base.bytes + BytesOfSnaps(snaps)) % U64
               && s.totals.crossAZ == (base.crossAZ + CrossOfSnaps(snaps)) % U64
               && s.totals.cost == CostOfSnaps(cfg.fp, base.cost, snaps)
               && |s.totals.ring| <= 360
               && (forall i :: 0 <= i < |snaps| <= i + 360 ==> InRing(s.totals.ring, snaps, i))
  {
    hide Run;
    hide CountInv;
    hide ReporterInv;
    hide AbsorbAll;
    hide InRing;
    hide LastOnes;
    hide Counted;
    var s := Run(cfg, Init(cfg, content, now), acts);
    RunCounts(cfg, content, now, acts);
    RingBounded(cfg, content, now, acts);
    TotalsOfSnaps(cfg, s);
    RingOfSnaps(s);
  }

  lemma TotalsOfSnaps(cfg: Config, s: State)
    requires CountInv(cfg, s)
    ensures var base, snaps := AbsorbAll(cfg.fp, EMPTY, s.replayed), s.snaps[..s.recorded];
            && s.totals.bytes == (base.bytes + BytesOfSnaps(snaps)) % U64
            && s.totals.crossAZ == (base.crossAZ + CrossOfSnaps(snaps)) % U64
            && s.totals.cost == CostOfSnaps(cfg.fp, base.cost, snaps)
  {
    hide AbsorbAll;
    var base, snaps := AbsorbAll(cfg.fp, EMPTY, s.replayed), s.snaps[..s.recorded];
    AbsorbAllAppend(cfg.fp, EMPTY, s.replayed, Records(snaps));
    AbsorbSnaps(cfg.fp, base, snaps);
    hide BytesOfSnaps;
    hide CrossOfSnaps;
    hide CostOfSnaps;
  }

  lemma RingOfSnaps(s: State)
    requires s.recorded <= |s.snaps| && s.totals.ring == LastOnes(Counted(s))
    ensures var snaps := s.snaps[..s.recorded];
            forall i :: 0 <= i < |snaps| <= i + 360 ==> InRing(s.totals.ring, snaps, i)
  {
    hide InRing;
    hide LastOnes;
    var snaps := s.snaps[..s.recorded];
    assert Counted(s) == s.replayed + Records(snaps);
    forall i | 0 <= i < |snaps| <= i + 360 ensures InRing(s.totals.ring, snaps, i) {
      RingCharts(s.replayed, snaps, i);
    }
  }

  /** Without a restart the base is the history the agent started with. */
  lemma HistorySinceStart(cfg: Config, content: string, now: string, acts: seq<Action>)
    requires !Restarts(acts)
    ensures var s, base := Run(cfg, Init(cfg, content, now), acts), Opened(cfg.fp, cfg.dec, content, now);
            && s.recorded <= |s.snaps|
            && var snaps := s.snaps[..s.recorded];
               && s.totals.bytes == (base.bytes + BytesOfSnaps(snaps)) % U64
               && s.totals.crossAZ == (base.crossAZ + CrossOfSnaps(snaps)) % U64
               && s.totals.cost == CostOfSnaps(cfg.fp, base.cost, snaps)
  {
    hide Run;
    hide Replay;
    hide Opened;
    hide AbsorbAll;
    hide InRing;
    HistoryIsSnapshots(cfg, content, now, acts);
    NothingReread(cfg, content, now, acts);
    OpenedIs(cfg.fp, cfg.dec, content, now);
  }

  // ----- Cross-AZ bytes -----

  /** The cross-AZ bytes of every table taken: recorded, in flight, or dropped by a restart. */
  ghost function CrossAccounted(s: State): nat { SumOf(RecsOf(s.writes), CrossAZIn) + CrossInFlight(s) + s.crossLost }

  ghost predicate CrossBalanced(s: State, s': State) {
    s.crossTaken <= s'.crossTaken && Same64(CrossAccounted(s'), CrossAccounted(s) + (s'.crossTaken - s.crossTaken))
  }

  lemma CrossStill(s: State, s': State)
    requires s'.writes == s.writes && CrossInFlight(s') == CrossInFlight(s)
    requires s'.crossLost == s.crossLost && s'.crossTaken == s.crossTaken
    ensures CrossBalanced(s, s')
  {
  }

  lemma ResetCross(cfg: Config, s: State, order: seq<string>, now: string)
    ensures CrossBalanced(s, ResetStep(cfg, s, order, now))
  {
    hide Ordered;
    hide Flows;
    hide Cost;
    hide RecsOf;
    hide SumOf;
    if s.reporter.Idle? && Ordered(s.table, order) {
      var sum, rest := Sum(s.table, CrossBytesOf), SumOf(RecsOf(s.writes), CrossAZIn) + s.crossLost;
      TotalsAreSums(s.table, order);
      WrapSame(sum);
      SameAdd(sum % U64, sum, rest, rest);
    } else {
      CrossStill(s, s);
    }
  }

  lemma RecordCross(cfg: Config, s: State, landed: Option<nat>)
    ensures CrossBalanced(s, RecordStep(cfg, s, landed))
  {
    hide Landing;
    hide Absorb;
    hide Marshal;
    hide RecsOf;
    hide SumOf;
    var s' := RecordStep(cfg, s, landed);
    if s.reporter.Reported? {
      var w := Last(s'.writes);
      RecsSnoc(s.writes, w);
      SumAppend(RecsOf(s.writes), [w.rec], CrossAZIn);
      OneSum(w.rec);
    }
  }

  lemma RecsSnoc(ws: seq<Write>, w: Write)
    ensures RecsOf(ws + [w]) == RecsOf(ws) + [w.rec]
  {
  }

  lemma OneSum(r: IntervalRecord)
    ensures SumOf([r], CrossAZIn) == r.crossAZBytes
  {
    assert [r][1..] == [];
  }

  lemma StepCross(cfg: Config, s: State, a: Action)
    ensures CrossBalanced(s, Step(cfg, s, a))
  {
    hide CrossBalanced;
    hide Reader.Dispatch;
    hide Replay;
    hide Opened;
    match a
    case Reset(order, now) => ResetCross(cfg, s, order, now);
    case Record(landed) => RecordCross(cfg, s, landed);
    case Restart(now) => RestartCross(cfg, s, now);
    case _ => CrossStill(s, Step(cfg, s, a));
  }

  lemma RestartCross(cfg: Config, s: State, now: string)
    ensures CrossBalanced(s, RestartStep(cfg, s, now))
  {
    hide Replay;
    hide Opened;
    hide RecsOf;
    hide SumOf;
  }

  lemma {:induction false} RunCross(cfg: Config, start: string, now: string, acts: seq<Action>)
    ensures var s := Run(cfg, Init(cfg, start, now), acts);
            Same64(CrossAccounted(s), s.crossTaken)
    decreases |acts|
  {
    hide CrossBalanced;
    hide CrossAccounted;
    hide Step;
    if acts == [] {
      NothingTaken(cfg, start, now);
    } else {
      var s, a := Run(cfg, Init(cfg, start, now), Front(acts)), Last(acts);
      RunCross(cfg, start, now, Front(acts));
      StepCross(cfg, s, a);
      CarryCross(s, Step(cfg, s, a));
    }
  }

  lemma NothingTaken(cfg: Config, start: string, now: string)
    ensures CrossAccounted(Init(cfg, start, now)) == 0
  {
  }

  lemma CarryCross(s: State, s': State)
    requires Same64(CrossAccounted(s), s.crossTaken) && CrossBalanced(s, s')
    ensures Same64(CrossAccounted(s'), s'.crossTaken)
  {
    SameAdd(CrossAccounted(s), s.crossTaken, s'.crossTaken - s.crossTaken, s'.crossTaken - s.crossTaken);
  }

  /** Main result, the twin of Conservation: over every interleaving, cumulative cross-AZ
      bytes are the replayed base and the cross-AZ bytes of every table taken, less the
      snapshot in flight, what restarts dropped and the intervals of torn writes. */
  lemma CrossConservation(cfg: Config, first: string, before: seq<Write>, start: string, now: string, acts: seq<Action>)
    requires Recoverable(cfg, first, before, start, acts)
    ensures var s := Run(cfg, Init(cfg, start, now), acts);
            && s.reread <= |s.writes|
            && Same64(s.totals.crossAZ + CrossInFlight(s) + s.crossLost + SumOf(Torn(cfg, first, before, s), CrossAZIn),
                      Opened(cfg.fp, cfg.dec, start, now).crossAZ + s.crossTaken)
  {
    hide Run;
    hide Opened;
    hide Replay;
    hide RecsOf;
    hide SumOf;
    hide Torn;
    hide AbsorbAll;
    hide ReporterInv;
    hide Recoverable;
    var s := Run(cfg, Init(cfg, start, now), acts);
    FileAccounted(cfg, first, before, start, now, acts, CrossAZIn);
    RunCross(cfg, start, now, acts);
    RunCounts(cfg, start, now, acts);
    TotalBytes(cfg, s);
    FirstBytes(cfg, start, now);
    hide CountInv;
    Settle(s.totals.crossAZ, SumOf(s.replayed, CrossAZIn) + SumOf(RecsOf(s.writes[s.reread..]), CrossAZIn),
           Opened(cfg.fp, cfg.dec, start, now).crossAZ, SumOf(Replay(cfg.dec, start), CrossAZIn),
           SumOf(RecsOf(s.writes), CrossAZIn), SumOf(Torn(cfg, first, before, s), CrossAZIn),
           CrossInFlight(s) + s.crossLost, s.crossTaken);
  }
}
