/** The whole agent as a step machine: one reader, one reporter, informers and
    restarts, interleaved at the granularity of their locked sections
    (pkg/adapters/ebpf/stats.go, reader.go, history.go; pkg/adapters/k8s). */
module Pipeline {
  import opened Wrappers
  import opened Words
  import opened Text
  import opened Float64
  import opened Cache
  import opened Codec
  import opened LogFile
  import opened FlowTable
  import opened Snapshots
  import opened History
  import Informer
  import Reader
  import Wire

  /** What stays fixed: arithmetic, price per GB, and the log decoder. */
  datatype Config = Config(fp: Fp, rate: real, dec: Decoder)
  {
    ghost predicate Sound() {
      && fp.Sound() && Decodes(dec, fp)
      && forall x :: fp.isFloat(x) ==> |fp.show(x)| <= 32
    }
  }

  /** Where the reporter stands: waiting, within one tick, or gone. */
  datatype Reporter = Idle | Took(snap: Snapshot) | Reported(snap: Snapshot) | Done
  {
    predicate Busy() { Took? || Reported? }
  }

  /** One flow event with the sample and the caches it was resolved from, and their places. */
  datatype Logged = Logged(event: FlowEvent, sample: Wire.Event, views: Reader.Views, at: seq<nat>)

  datatype State = State(
    table: Table, execs: u64,          // Stats
    latest: Option<Snapshot>,          // the published snapshot
    reporter: Reporter, stopped: bool,
    totals: Totals, content: string,   // HistoryStore and its file
    cache: Identities,
    // what happened, for stating properties only
    caches: seq<Identities>,           // every cache so far, the current one last
    seen: nat,                         // the cache current when the last flow event was recorded
    log: seq<Logged>,                  // flow events since the last reset
    replayed: seq<IntervalRecord>,     // read back at the last start
    snaps: seq<Snapshot>,              // taken since the last start
    logs: seq<seq<Logged>>,            // the flow events of each of them
    published: nat, recorded: nat,     // how many of them were, up to the last one that was
    unpublished: nat,                  // how many failed to marshal since the last one that was published
    writes: seq<Write>,                // recorded since the very first start
    reread: nat,                       // how many of those the last restart had before it
    sent: nat, lost: nat,              // bytes of decoded sends; bytes dropped by restarts
    crossTaken: nat, crossLost: nat)   // cross-AZ bytes of the tables taken; those of snapshots dropped by restarts

  datatype Action =
    | Sample(raw: seq<Byte>, at: seq<nat>, now: string)  // `at`: the cache each of the eight lookups sees
    | Inform(event: Informer.Event)
    | Reset(order: seq<string>, now: string)                  // snapshotAndReset, keys in this order
    | Publish(marshalled: bool)
    | Record(landed: Option<nat>)                             // None: the whole line reaches the disk
    | Stop
    | Leave                                                   // the reporter sees the stop event
    | Restart(now: string)                                    // the process dies and starts again

  function Init(cfg: Config, content: string, now: string): State {
    State(map[], 0, None, Idle, false, Opened(cfg.fp, cfg.dec, content, now), content, Informer.NO_IDENTITIES,
          [Informer.NO_IDENTITIES], 0, [], Replay(cfg.dec, content), [], [], 0, 0, 0, [], 0, 0, 0, 0, 0)
  }

  /** The lookups of one event happen in order, after the last event was recorded. */
  predicate Admissible(s: State, at: seq<nat>) {
    && |at| == 8 && s.seen <= at[0] && at[7] < |s.caches|
    && (forall i, j :: 0 <= i < j < 8 ==> at[i] <= at[j])
  }

  function ViewsAt(s: State, at: seq<nat>): Reader.Views
    requires Admissible(s, at)
  {
    seq(8, i requires 0 <= i < 8 => s.caches[at[i]])
  }

  function SampleStep(s: State, raw: seq<Byte>, at: seq<nat>, now: string): State {
    var vs := if Admissible(s, at) then ViewsAt(s, at) else Reader.Steady(s.cache);
    match Reader.Dispatch(raw, vs, now)
    case Ignored => s
    case Exec => s.(execs := Add64(s.execs, 1))
    case Flow(e) =>
      if !Admissible(s, at) then s else
      s.(table := Apply(s.table, e), seen := |s.caches| - 1, sent := s.sent + Sent(e),
         log := s.log + [Logged(e, Wire.Decode(raw).value, vs, at)])
  }

  function InformStep(s: State, e: Informer.Event): State {
    var v := Informer.Handle(s.cache, e);
    s.(cache := v, caches := s.caches + [v])
  }

  ghost function ResetStep(cfg: Config, s: State, order: seq<string>, now: string): State {
    if !s.reporter.Idle? || !Ordered(s.table, order) then s else
    var snap := Take(cfg.fp, cfg.rate, s.table, s.execs, order, now);
    s.(table := map[], execs := 0, log := [], reporter := Took(snap), snaps := s.snaps + [snap], logs := s.logs + [s.log],
       crossTaken := s.crossTaken + Sum(s.table, CrossBytesOf))
  }

  function PublishStep(s: State, marshalled: bool): State {
    if !s.reporter.Took? then s
    else if marshalled then
      s.(latest := Some(s.reporter.snap), reporter := Reported(s.reporter.snap), published := |s.snaps|, unpublished := 0)
    else s.(reporter := Reported(s.reporter.snap), unpublished := s.unpublished + 1)
  }

  function RecordStep(cfg: Config, s: State, landed: Option<nat>): State {
    if !s.reporter.Reported? then s else
    var rec := RecordOf(s.reporter.snap);
    var w := Write(rec, if landed.None? then |Line(cfg.fp, rec)| else landed.value);
    s.(totals := Absorb(cfg.fp, s.totals, rec), content := s.content + Landing(cfg.fp, w),
       reporter := Idle, recorded := |s.snaps|, writes := s.writes + [w])
  }

  /** With both the stop event and a tick ready, select takes either. */
  function LeaveStep(s: State): State { if s.reporter.Idle? && s.stopped then s.(reporter := Done) else s }

  /** Bytes in a snapshot taken but not yet recorded. */
  function InFlight(s: State): nat { if s.reporter.Busy() then s.reporter.snap.totalBytes else 0 }

  function CrossInFlight(s: State): nat { if s.reporter.Busy() then s.reporter.snap.crossAZBytes else 0 }

  ghost function RestartStep(cfg: Config, s: State, now: string): State {
    Init(cfg, s.content, now).(writes := s.writes, reread := |s.writes|, sent := s.sent,
                               lost := s.lost + InFlight(s) + Sum(s.table, BytesOf),
                               crossTaken := s.crossTaken, crossLost := s.crossLost + CrossInFlight(s))
  }

  /** One locked section; one that does not fit where the agent stands does nothing. */
  ghost function Step(cfg: Config, s: State, a: Action): State {
    match a
    case Sample(raw, at, now) => SampleStep(s, raw, at, now)
    case Inform(e) => InformStep(s, e)
    case Reset(order, now) => ResetStep(cfg, s, order, now)
    case Publish(marshalled) => PublishStep(s, marshalled)
    case Record(landed) => RecordStep(cfg, s, landed)
    case Stop => s.(stopped := true)
    case Leave => LeaveStep(s)
    case Restart(now) => RestartStep(cfg, s, now)
  }

  ghost function Run(cfg: Config, s: State, acts: seq<Action>): State
    decreases |acts|
  {
    if acts == [] then s else Step(cfg, Run(cfg, s, Front(acts)), Last(acts))
  }

  // ----- Counting -----

  /** The intervals the totals stand for. */
  function Counted(s: State): seq<IntervalRecord>
    requires s.recorded <= |s.snaps|
  {
    s.replayed + Records(s.snaps[..s.recorded])
  }

  /** The reporter's place fixes how far publishing and recording have come. */
  predicate ReporterInv(s: State) {
    && s.published <= |s.snaps|
    && (s.latest.Some? <==> s.published > 0)
    && (s.latest.Some? ==> s.latest.value == s.snaps[s.published - 1])
    && match s.reporter
       case Idle => s.recorded == |s.snaps|
       case Done => s.recorded == |s.snaps|
       case Took(snap) => |s.snaps| > 0 && snap == Last(s.snaps) && s.recorded == |s.snaps| - 1 && s.published < |s.snaps|
       case Reported(snap) => |s.snaps| > 0 && snap == Last(s.snaps) && s.recorded == |s.snaps| - 1
  }

  /** The totals are the fold of what is counted: what was read back, and what was written since. */
  ghost predicate CountInv(cfg: Config, s: State) {
    && s.recorded <= |s.snaps|
    && s.totals == AbsorbAll(cfg.fp, EMPTY, Counted(s)).(since := s.totals.since)
    && s.reread <= |s.writes|
    && Records(s.snaps[..s.recorded]) == RecsOf(s.writes[s.reread..])
  }

  lemma ReporterStep(cfg: Config, s: State, a: Action)
    requires ReporterInv(s)
    ensures ReporterInv(Step(cfg, s, a))
  {
    hide Reader.Dispatch;
    hide ResetStep;
    hide RecordStep;
    hide Replay;
    hide Opened;
    match a
    case Reset(order, now) => ResetReporter(cfg, s, order, now);
    case Record(landed) => RecordReporter(cfg, s, landed);
    case _ =>
  }

  lemma ResetReporter(cfg: Config, s: State, order: seq<string>, now: string)
    requires ReporterInv(s)
    ensures ReporterInv(ResetStep(cfg, s, order, now))
  {
    hide Take;
    hide Ordered;
    hide Sum;
  }

  lemma RecordReporter(cfg: Config, s: State, landed: Option<nat>)
    requires ReporterInv(s)
    ensures ReporterInv(RecordStep(cfg, s, landed))
  {
    hide Absorb;
    hide Landing;
    hide Marshal;
  }

  lemma CountStep(cfg: Config, s: State, a: Action)
    requires ReporterInv(s) && CountInv(cfg, s)
    ensures CountInv(cfg, Step(cfg, s, a))
  {
    var s' := Step(cfg, s, a);
    hide Reader.Dispatch;
    hide Absorb;
    hide Take;
    hide Ordered;
    match a
    case Reset(order, now) =>
      assert s'.snaps[..s'.recorded] == s.snaps[..s.recorded];
    case Record(landed) => RecordCounts(cfg, s, landed);
    case Restart(now) => FreshCount(cfg, s.content, now);
    case _ =>
  }

  lemma RecordCounts(cfg: Config, s: State, landed: Option<nat>)
    requires ReporterInv(s) && CountInv(cfg, s)
    ensures CountInv(cfg, RecordStep(cfg, s, landed))
  {
    hide Marshal;
    hide Landing;
    hide Absorb;
    var s' := RecordStep(cfg, s, landed);
    if s.reporter.Reported? {
      var rec := RecordOf(s.reporter.snap);
      assert s.snaps[..s.recorded] == Front(s.snaps) && s'.snaps[..s'.recorded] == s.snaps;
      RecordsSnoc(s.snaps);
      assert Counted(s') == Counted(s) + [rec];
      assert s'.writes[s'.reread..] == s.writes[s.reread..] + [Last(s'.writes)];
      hide AbsorbAll;
      AbsorbAllAppend(cfg.fp, EMPTY, Counted(s), [rec]);
      AbsorbAlone(cfg.fp, AbsorbAll(cfg.fp, EMPTY, Counted(s)), s.totals.since, rec);
    }
  }

  lemma AbsorbAlone(fp: Fp, t: Totals, since: string, rec: IntervalRecord)
    ensures Absorb(fp, t.(since := since), rec) == AbsorbAll(fp, t, [rec]).(since := since)
    ensures Absorb(fp, t.(since := since), rec).since == since
  {
    AbsorbOne(fp, t, rec);
  }

  lemma FreshCount(cfg: Config, content: string, now: string)
    ensures CountInv(cfg, Init(cfg, content, now))
  {
    OpenedIs(cfg.fp, cfg.dec, content, now);
    assert Counted(Init(cfg, content, now)) == Replay(cfg.dec, content);
  }

  lemma {:induction false} RunCounts(cfg: Config, content: string, now: string, acts: seq<Action>)
    ensures ReporterInv(Run(cfg, Init(cfg, content, now), acts))
    ensures CountInv(cfg, Run(cfg, Init(cfg, content, now), acts))
    decreases |acts|
  {
    hide Step;
    if acts == [] {
      FreshCount(cfg, content, now);
    } else {
      var s := Run(cfg, Init(cfg, content, now), Front(acts));
      RunCounts(cfg, content, now, Front(acts));
      ReporterStep(cfg, s, Last(acts));
      CountStep(cfg, s, Last(acts));
    }
  }

  /** In every reachable state the ring is exactly the last min(360, n) of all intervals
      read back and recorded. */
  lemma RingBounded(cfg: Config, content: string, now: string, acts: seq<Action>)
    ensures var s := Run(cfg, Init(cfg, content, now), acts);
            && s.recorded <= |s.snaps|
            && s.totals.ring == LastOnes(Counted(s))
            && |s.totals.ring| <= RING_CAP
  {
    var s := Run(cfg, Init(cfg, content, now), acts);
    RunCounts(cfg, content, now, acts);
    RingIsLastOnes(cfg.fp, EMPTY, [], Counted(s));
    assert [] + Counted(s) == Counted(s);
  }

  /** Publishing is behind by the snapshots that failed to marshal since it last succeeded. */
  predicate PublishInv(s: State) {
    s.published + s.unpublished == if s.reporter.Took? then |s.snaps| - 1 else |s.snaps|
  }

  lemma {:induction false} RunPublishes(cfg: Config, content: string, now: string, acts: seq<Action>)
    ensures PublishInv(Run(cfg, Init(cfg, content, now), acts))
    decreases |acts|
  {
    if acts != [] {
      RunPublishes(cfg, content, now, Front(acts));
      RunCounts(cfg, content, now, Front(acts));
      hide CountInv;
      hide Run;
      PublishInvStep(cfg, Run(cfg, Init(cfg, content, now), Front(acts)), Last(acts));
    }
  }

  lemma PublishInvStep(cfg: Config, s: State, a: Action)
    requires ReporterInv(s) && PublishInv(s)
    ensures PublishInv(Step(cfg, s, a))
  {
    hide Take;
    hide Ordered;
    hide Reader.Dispatch;
    hide Absorb;
    hide Opened;
  }

  /** What a dashboard sees: the published snapshot is behind the ring by exactly the
      snapshots that failed to marshal since the last one that did not, and between
      publish and record it is one interval further on; when neither is the case both
      show the same interval. */
  lemma ViewSkew(cfg: Config, content: string, now: string, acts: seq<Action>)
    ensures var s := Run(cfg, Init(cfg, content, now), acts);
            && ReporterInv(s)
            && s.published + s.unpublished == s.recorded + (if s.reporter.Reported? then 1 else 0)
            && (s.recorded > 0 ==> s.totals.ring != [] && Last(s.totals.ring) == RecordOf(s.snaps[s.recorded - 1]))
            && (s.recorded > 0 && s.unpublished == 0 && !s.reporter.Reported? ==>
                  s.latest.Some? && RecordOf(s.latest.value) == Last(s.totals.ring))
  {
    var s := Run(cfg, Init(cfg, content, now), acts);
    RunCounts(cfg, content, now, acts);
    RunPublishes(cfg, content, now, acts);
    RingBounded(cfg, content, now, acts);
    hide Run;
    if s.recorded > 0 {
      assert Last(Counted(s)) == RecordOf(s.snaps[s.recorded - 1]);
      LastOfLast(Counted(s));
    }
  }

  lemma LastOfLast(rs: seq<IntervalRecord>)
    requires rs != []
    ensures LastOnes(rs) != [] && Last(LastOnes(rs)) == Last(rs)
  {
  }

  /** Once the reporter has left, whatever else happens short of a restart, nothing more is
      taken, published, recorded or written; and it leaves as soon as it waits and sees the
      stop event. */
  lemma {:induction false} StoppedForGood(cfg: Config, s: State, acts: seq<Action>)
    requires s.reporter.Done? || (s.reporter.Idle? && s.stopped && acts != [] && acts[0].Leave?)
    requires !Restarts(acts)
    ensures var s' := Run(cfg, s, acts);
            && s'.reporter.Done? && s'.snaps == s.snaps && s'.latest == s.latest
            && s'.totals == s.totals && s'.content == s.content && s'.writes == s.writes
    decreases |acts|
  {
    hide Reader.Dispatch;
    hide Take;
    hide Ordered;
    hide Absorb;
    hide Sum;
    if |acts| > 1 || (acts != [] && s.reporter.Done?) {
      assert Last(acts) in acts;
      forall a | a in Front(acts) ensures !a.Restart? { assert a in acts; }
      StoppedForGood(cfg, s, Front(acts));
    } else if acts != [] {
      assert Front(acts) == [];
    }
  }

  /** The stop event stays set, so a reporter that waits can always see it. */
  lemma {:induction false} StopStaysSet(cfg: Config, s: State, acts: seq<Action>)
    requires acts != [] && acts[0].Stop? && !Restarts(acts)
    ensures var s' := Run(cfg, s, acts);
            s'.stopped && (s'.reporter.Idle? ==> Step(cfg, s', Leave).reporter.Done?)
    decreases |acts|
  {
    hide Reader.Dispatch;
    assert Last(acts) in acts;
    if |acts| > 1 {
      forall a | a in Front(acts) ensures !a.Restart? { assert a in acts; }
      StopStaysSet(cfg, s, Front(acts));
    }
  }

  // ----- Where the sent bytes are -----

  /** Everything that was sent: recorded, in flight, still in the table, or dropped by a restart. */
  ghost function Accounted(s: State): nat {
    SumOf(RecsOf(s.writes), BytesIn) + InFlight(s) + Sum(s.table, BytesOf) + s.lost
  }

  /** Reaching s' from s, the account grew by exactly what was sent. */
  ghost predicate Balanced(s: State, s': State) {
    s.sent <= s'.sent && Same64(Accounted(s'), Accounted(s) + (s'.sent - s.sent))
  }

  lemma SampleBalanced(s: State, raw: seq<Byte>, at: seq<nat>, now: string)
    ensures Balanced(s, SampleStep(s, raw, at, now))
  {
    hide Reader.Dispatch;
    hide Apply;
    hide RecsOf;
    hide SumOf;
    var vs := if Admissible(s, at) then ViewsAt(s, at) else Reader.Steady(s.cache);
    var x := Reader.Dispatch(raw, vs, now);
    if x.Flow? && Admissible(s, at) {
      ApplyAddsBytes(s.table, x.event);
      var rest := SumOf(RecsOf(s.writes), BytesIn) + InFlight(s) + s.lost;
      SameAdd(Sum(Apply(s.table, x.event), BytesOf), Sum(s.table, BytesOf) + Sent(x.event), rest, rest);
    }
  }

  lemma ResetBalanced(cfg: Config, s: State, order: seq<string>, now: string)
    ensures Balanced(s, ResetStep(cfg, s, order, now))
  {
    hide Ordered;
    hide Flows;
    hide Cost;
    hide RecsOf;
    hide SumOf;
    var s' := ResetStep(cfg, s, order, now);
    if s.reporter.Idle? && Ordered(s.table, order) {
      var sum, rest := Sum(s.table, BytesOf), SumOf(RecsOf(s.writes), BytesIn) + s.lost;
      TotalsAreSums(s.table, order);
      WrapSame(sum);
      SameAdd(sum % U64, sum, rest, rest);
      assert Sum(s'.table, BytesOf) == 0;
    }
  }

  lemma SumSnoc(ws: seq<Write>, w: Write)
    ensures SumOf(RecsOf(ws + [w]), BytesIn) == SumOf(RecsOf(ws), BytesIn) + w.rec.totalBytes
  {
    assert RecsOf(ws + [w]) == RecsOf(ws) + [w.rec];
    SumAppend(RecsOf(ws), [w.rec], BytesIn);
  }

  lemma RecordBalanced(cfg: Config, s: State, landed: Option<nat>)
    ensures Balanced(s, RecordStep(cfg, s, landed))
  {
    hide Landing;
    hide Absorb;
    hide Marshal;
    hide RecsOf;
    hide SumOf;
    var s' := RecordStep(cfg, s, landed);
    if s.reporter.Reported? { SumSnoc(s.writes, Last(s'.writes)); }
  }

  /** A restart loses the table and the in-flight snapshot, and nothing else. */
  lemma RestartBalanced(cfg: Config, s: State, now: string)
    ensures Balanced(s, RestartStep(cfg, s, now))
  {
    hide Replay;
    hide Opened;
    hide RecsOf;
    hide SumOf;
    assert Sum(RestartStep(cfg, s, now).table, BytesOf) == 0;
  }

  lemma StepBalanced(cfg: Config, s: State, a: Action)
    ensures Balanced(s, Step(cfg, s, a))
  {
    hide Balanced;
    hide Replay;
    match a
    case Sample(raw, at, now) => SampleBalanced(s, raw, at, now);
    case Reset(order, now) => ResetBalanced(cfg, s, order, now);
    case Record(landed) => RecordBalanced(cfg, s, landed);
    case Restart(now) => RestartBalanced(cfg, s, now);
    case Inform(e) => StillBalanced(s, InformStep(s, e));
    case Publish(marshalled) => StillBalanced(s, PublishStep(s, marshalled));
    case Stop => StillBalanced(s, s.(stopped := true));
    case Leave => StillBalanced(s, LeaveStep(s));
  }

  lemma StillBalanced(s: State, s': State)
    requires s'.writes == s.writes && InFlight(s') == InFlight(s) && s'.table == s.table && s'.lost == s.lost && s'.sent == s.sent
    ensures Balanced(s, s')
  {
  }

  /** In every reachable state, every byte of a decoded send is in a record written, in the
      snapshot in flight, in the table, or was dropped by a restart, and in one of them only. */
  lemma {:induction false} SentAccounted(cfg: Config, start: string, now: string, acts: seq<Action>)
    ensures var s := Run(cfg, Init(cfg, start, now), acts);
            Same64(Accounted(s), s.sent)
    decreases |acts|
  {
    hide Accounted;
    hide Balanced;
    hide Step;
    if acts == [] {
      NothingYet(cfg, start, now);
    } else {
      var s, a := Run(cfg, Init(cfg, start, now), Front(acts)), Last(acts);
      SentAccounted(cfg, start, now, Front(acts));
      StepBalanced(cfg, s, a);
      CarryOver(s, Step(cfg, s, a));
    }
  }

  lemma CarryOver(s: State, s': State)
    requires Same64(Accounted(s), s.sent) && Balanced(s, s')
    ensures Same64(Accounted(s'), s'.sent)
  {
    SameAdd(Accounted(s), s.sent, s'.sent - s.sent, s'.sent - s.sent);
  }

  lemma NothingYet(cfg: Config, start: string, now: string)
    ensures Accounted(Init(cfg, start, now)) == 0
  {
    assert Sum(map[], BytesOf) == 0;
  }

  // ----- The file -----

  /** Clock readings are RFC 3339 and the table is no larger than an int can count. */
  predicate Plausible(a: Action) {
    a.Reset? ==> Stamp(a.now) && |a.now| <= 64 && |a.order| < INT_MAX
  }

  predicate AllPlausible(acts: seq<Action>) { forall a :: a in acts ==> Plausible(a) }

  predicate ShortRecord(cfg: Config, r: IntervalRecord) {
    Printable(cfg.fp, r) && 2 * |Marshal(cfg.fp, r)| < MAX_TOKEN
  }

  /** The tally of a closed file and of every write since. */
  function TallyOf(cfg: Config, first: string, ws: seq<Write>): Tally { Tallied(cfg.fp, Start(cfg.dec, first), ws) }

  /** The first file is one this program could have left, torn or not: a closed one, and
      any writes after it, each cut anywhere. */
  ghost predicate Left(cfg: Config, first: string, before: seq<Write>, start: string) {
    Closed(first) && AllPrintable(cfg.fp, before) && start == Appended(cfg.fp, first, before)
  }

  predicate AllShort(cfg: Config, ws: seq<Write>) { forall w :: w in ws ==> ShortRecord(cfg, w.rec) }

  /** The file is the first file and every write since, and what the last start read back
      are the survivors of the writes before it. */
  ghost predicate DiskInv(cfg: Config, first: string, before: seq<Write>, s: State) {
    && AllShort(cfg, s.writes)
    && (s.reporter.Busy() ==> ShortRecord(cfg, RecordOf(s.reporter.snap)))
    && s.content == Appended(cfg.fp, first, before + s.writes)
    && s.reread <= |s.writes|
    && s.replayed == Survivors(TallyOf(cfg, first, before + s.writes[..s.reread]))
  }

  lemma DiskStart(cfg: Config, first: string, before: seq<Write>, start: string, now: string)
    requires cfg.Sound() && Left(cfg, first, before, start)
    ensures DiskInv(cfg, first, before, Init(cfg, start, now))
  {
    hide Replay;
    hide Opened;
    ReplayReadsSurvivors(cfg.fp, cfg.dec, first, before);
    assert before + [] == before;
  }

  lemma {:induction false} CostIsFloat(cfg: Config, t: Table, keys: seq<string>)
    requires cfg.Sound() && Within(t, keys)
    ensures cfg.fp.isFloat(Cost(cfg.fp, cfg.rate, t, keys))
    decreases |keys|
  {
  }

  lemma TakenShort(cfg: Config, s: State, order: seq<string>, now: string)
    requires cfg.Sound() && Ordered(s.table, order) && Stamp(now) && |now| <= 64 && |order| < INT_MAX
    ensures ShortRecord(cfg, RecordOf(Take(cfg.fp, cfg.rate, s.table, s.execs, order, now)))
  {
    assert Within(s.table, order);
    hide Ordered;
    hide Marshal;
    hide Accumulated;
    hide Flows;
    CostIsFloat(cfg, s.table, order);
    LineLength(cfg.fp, RecordOf(Take(cfg.fp, cfg.rate, s.table, s.execs, order, now)));
  }

  lemma AppendOne(fp: Fp, first: string, before: seq<Write>, ws: seq<Write>, w: Write)
    ensures Appended(fp, first, before + (ws + [w])) == Appended(fp, first, before + ws) + Landing(fp, w)
  {
    hide Landing;
    assert Front(before + (ws + [w])) == before + ws && Last(before + (ws + [w])) == w;
  }

  lemma RecordDisk(cfg: Config, first: string, before: seq<Write>, s: State, landed: Option<nat>)
    requires ReporterInv(s) && DiskInv(cfg, first, before, s)
    ensures DiskInv(cfg, first, before, RecordStep(cfg, s, landed))
  {
    hide Marshal;
    hide Absorb;
    hide Landing;
    hide Survivors;
    hide ShortRecord;
    hide TallyOf;
    var s' := RecordStep(cfg, s, landed);
    if s.reporter.Reported? {
      AppendOne(cfg.fp, first, before, s.writes, Last(s'.writes));
      hide Appended;
      assert s'.writes[..s'.reread] == s.writes[..s.reread];
    }
  }

  lemma AllWritten(cfg: Config, first: string, before: seq<Write>, s: State)
    requires cfg.Sound() && Closed(first) && AllPrintable(cfg.fp, before) && DiskInv(cfg, first, before, s)
    ensures AllPrintable(cfg.fp, before + s.writes)
    ensures Replay(cfg.dec, s.content) == Survivors(TallyOf(cfg, first, before + s.writes))
  {
    ReplayReadsSurvivors(cfg.fp, cfg.dec, first, before + s.writes);
  }

  lemma RestartDisk(cfg: Config, first: string, before: seq<Write>, s: State, now: string)
    requires cfg.Sound() && Closed(first) && AllPrintable(cfg.fp, before) && DiskInv(cfg, first, before, s)
    ensures DiskInv(cfg, first, before, RestartStep(cfg, s, now))
  {
    hide Replay;
    hide Opened;
    hide Survivors;
    hide ShortRecord;
    AllWritten(cfg, first, before, s);
    assert s.writes[..|s.writes|] == s.writes;
  }

  lemma DiskStep(cfg: Config, first: string, before: seq<Write>, s: State, a: Action)
    requires cfg.Sound() && Closed(first) && AllPrintable(cfg.fp, before)
    requires ReporterInv(s) && DiskInv(cfg, first, before, s) && Plausible(a)
    ensures DiskInv(cfg, first, before, Step(cfg, s, a))
  {
    hide DiskInv;
    hide Reader.Dispatch;
    hide Absorb;
    hide Opened;
    hide Ordered;
    hide Take;
    match a
    case Record(landed) => RecordDisk(cfg, first, before, s, landed);
    case Reset(order, now) => ResetDisk(cfg, first, before, s, order, now);
    case Restart(now) => RestartDisk(cfg, first, before, s, now);
    case _ => KeepsDisk(cfg, first, before, s, Step(cfg, s, a));
  }

  lemma KeepsDisk(cfg: Config, first: string, before: seq<Write>, s: State, s': State)
    requires DiskInv(cfg, first, before, s)
    requires s'.writes == s.writes && s'.content == s.content && s'.reread == s.reread && s'.replayed == s.replayed
    requires s'.reporter.Busy() ==> s.reporter.Busy() && s'.reporter.snap == s.reporter.snap
    ensures DiskInv(cfg, first, before, s')
  {
  }

  lemma ResetDisk(cfg: Config, first: string, before: seq<Write>, s: State, order: seq<string>, now: string)
    requires cfg.Sound() && DiskInv(cfg, first, before, s) && Plausible(Reset(order, now))
    ensures DiskInv(cfg, first, before, ResetStep(cfg, s, order, now))
  {
    hide Take;
    hide ShortRecord;
    hide Appended;
    hide Survivors;
    if s.reporter.Idle? && Ordered(s.table, order) { TakenShort(cfg, s, order, now); }
  }

  lemma {:induction false} RunDisk(cfg: Config, first: string, before: seq<Write>, start: string, now: string, acts: seq<Action>)
    requires cfg.Sound() && Left(cfg, first, before, start) && AllPlausible(acts)
    ensures DiskInv(cfg, first, before, Run(cfg, Init(cfg, start, now), acts))
    decreases |acts|
  {
    hide DiskInv;
    hide Step;
    if acts == [] {
      DiskStart(cfg, first, before, start, now);
    } else {
      RunDisk(cfg, first, before, start, now, Front(acts));
      RunCounts(cfg, start, now, Front(acts));
      assert Last(acts) in acts;
      hide CountInv;
      DiskStep(cfg, first, before, Run(cfg, Init(cfg, start, now), Front(acts)), Last(acts));
    }
  }

  // ----- Totals over whole runs -----

  /** The intervals the totals stand for, told from the writes alone. */
  function Standing(cfg: Config, first: string, before: seq<Write>, s: State): seq<IntervalRecord>
    requires s.reread <= |s.writes|
  {
    Survivors(TallyOf(cfg, first, before + s.writes[..s.reread])) + RecsOf(s.writes[s.reread..])
  }

  /** Main result: over any run, with any number of crashes, each of which may cut a write
      anywhere, the totals are the fold of the survivors of the writes before the last
      start and of every interval recorded since; and the next restart will make them the
      fold of the survivors of all writes. */
  lemma TotalsAreSurvivors(cfg: Config, first: string, before: seq<Write>, start: string, now: string, acts: seq<Action>, again: string)
    requires cfg.Sound() && Left(cfg, first, before, start) && AllPlausible(acts)
    ensures var s := Run(cfg, Init(cfg, start, now), acts);
            var kept := Survivors(TallyOf(cfg, first, before + s.writes));
            && s.reread <= |s.writes|
            && s.totals == AbsorbAll(cfg.fp, EMPTY, Standing(cfg, first, before, s)).(since := s.totals.since)
            && RestartStep(cfg, s, again).totals == AbsorbAll(cfg.fp, EMPTY, kept).(since := FirstStamp(kept, again))
  {
    hide Run;
    hide Survivors;
    hide Replay;
    var s := Run(cfg, Init(cfg, start, now), acts);
    RunDisk(cfg, first, before, start, now, acts);
    RunCounts(cfg, start, now, acts);
    AllWritten(cfg, first, before, s);
    OpenedIs(cfg.fp, cfg.dec, s.content, again);
  }

  predicate Restarts(acts: seq<Action>) { exists a :: a in acts && a.Restart? }

  /** Without a restart nothing has been read back but the first file. */
  lemma {:induction false} NothingReread(cfg: Config, start: string, now: string, acts: seq<Action>)
    requires !Restarts(acts)
    ensures var s := Run(cfg, Init(cfg, start, now), acts);
            s.reread == 0 && s.replayed == Replay(cfg.dec, start)
    decreases |acts|
  {
    hide Reader.Dispatch;
    hide Take;
    hide Ordered;
    hide Absorb;
    hide Opened;
    hide Replay;
    if acts != [] {
      assert Last(acts) in acts;
      forall a | a in Front(acts) ensures !a.Restart? { assert a in acts; }
      NothingReread(cfg, start, now, Front(acts));
    }
  }

  /** What reading back has taken away so far: of the writes up to the last start, exactly
      the records that did not survive. */
  function Torn(cfg: Config, first: string, before: seq<Write>, s: State): seq<IntervalRecord>
    requires s.reread <= |s.writes|
  {
    AllGone(cfg.fp, TallyOf(cfg, first, before), s.writes[..s.reread])
  }

  /** What was read back at the first start and all that was written since is read back or
      written since the last start, or torn. */
  lemma SurviveOrTorn(cfg: Config, first: string, before: seq<Write>, s: State, f: IntervalRecord -> nat)
    requires DiskInv(cfg, first, before, s)
    ensures SumOf(Survivors(TallyOf(cfg, first, before)), f) + SumOf(RecsOf(s.writes), f)
         == SumOf(s.replayed, f) + SumOf(RecsOf(s.writes[s.reread..]), f) + SumOf(Torn(cfg, first, before, s), f)
  {
    hide Survivors;
    hide AllGone;
    hide Tallied;
    hide Start;
    hide Marshal;
    var old', tb := s.writes[..s.reread], TallyOf(cfg, first, before);
    TalliedAppend(cfg.fp, Start(cfg.dec, first), before, old');
    SurviveOrGone(cfg.fp, tb, old');
    hide RecsOf;
    hide SumOf;
    hide AllShort;
    SumExchanged(Survivors(tb), RecsOf(old'), s.replayed, Torn(cfg, first, before, s), f);
    RecsSplit(s.writes, s.reread);
    SumAppend(RecsOf(old'), RecsOf(s.writes[s.reread..]), f);
  }

  lemma SumExchanged(a: seq<IntervalRecord>, b: seq<IntervalRecord>, c: seq<IntervalRecord>, d: seq<IntervalRecord>,
                    f: IntervalRecord -> nat)
    requires multiset(a) + multiset(b) == multiset(c) + multiset(d)
    ensures SumOf(a, f) + SumOf(b, f) == SumOf(c, f) + SumOf(d, f)
  {
    hide SumOf;
    assert multiset(a + b) == multiset(c + d);
    SumPermuted(a + b, c + d, f);
    SumAppend(a, b, f);
    SumAppend(c, d, f);
  }

  /** The bytes a state's totals show, unwrapped. */
  lemma TotalBytes(cfg: Config, s: State)
    requires CountInv(cfg, s)
    ensures Same64(s.totals.bytes, SumOf(s.replayed, BytesIn) + SumOf(RecsOf(s.writes[s.reread..]), BytesIn))
    ensures Same64(s.totals.crossAZ, SumOf(s.replayed, CrossAZIn) + SumOf(RecsOf(s.writes[s.reread..]), CrossAZIn))
  {
    hide RecsOf;
    hide SumOf;
    IntervalSums(cfg.fp, EMPTY, Counted(s));
    SumAppend(s.replayed, RecsOf(s.writes[s.reread..]), BytesIn);
    SumAppend(s.replayed, RecsOf(s.writes[s.reread..]), CrossAZIn);
    WrapSame(SumOf(Counted(s), BytesIn));
    WrapSame(SumOf(Counted(s), CrossAZIn));
  }

  lemma FirstBytes(cfg: Config, start: string, now: string)
    ensures var t := Opened(cfg.fp, cfg.dec, start, now);
            && Same64(t.bytes, SumOf(Replay(cfg.dec, start), BytesIn))
            && Same64(t.crossAZ, SumOf(Replay(cfg.dec, start), CrossAZIn))
  {
    hide Replay;
    hide SumOf;
    OpenedIs(cfg.fp, cfg.dec, start, now);
    IntervalSums(cfg.fp, EMPTY, Replay(cfg.dec, start));
    WrapSame(SumOf(Replay(cfg.dec, start), BytesIn));
    WrapSame(SumOf(Replay(cfg.dec, start), CrossAZIn));
  }

  /** What a run needs of its start only if it restarts. */
  ghost predicate Recoverable(cfg: Config, first: string, before: seq<Write>, start: string, acts: seq<Action>) {
    Restarts(acts) ==> cfg.Sound() && Left(cfg, first, before, start) && AllPlausible(acts)
  }

  /** The unwrapped accounts of the file. */
  lemma FileAccounted(cfg: Config, first: string, before: seq<Write>, start: string, now: string, acts: seq<Action>,
                      f: IntervalRecord -> nat)
    requires Recoverable(cfg, first, before, start, acts)
    ensures var s := Run(cfg, Init(cfg, start, now), acts);
            && s.reread <= |s.writes|
            && SumOf(Replay(cfg.dec, start), f) + SumOf(RecsOf(s.writes), f)
               == SumOf(s.replayed, f) + SumOf(RecsOf(s.writes[s.reread..]), f) + SumOf(Torn(cfg, first, before, s), f)
  {
    hide Run;
    hide Replay;
    hide RecsOf;
    hide SumOf;
    hide Survivors;
    hide Tallied;
    var s := Run(cfg, Init(cfg, start, now), acts);
    RunCounts(cfg, start, now, acts);
    if Restarts(acts) {
      RunDisk(cfg, first, before, start, now, acts);
      ReplayReadsSurvivors(cfg.fp, cfg.dec, first, before);
      hide AllGone;
      SurviveOrTorn(cfg, first, before, s, f);
    } else {
      NothingReread(cfg, start, now, acts);
      assert s.writes[..0] == [] && s.writes[0..] == s.writes;
      assert Torn(cfg, first, before, s) == [];
      assert SumOf([], f) == 0 by { EmptySum(f); }
    }
  }

  lemma EmptySum(f: IntervalRecord -> nat)
    ensures SumOf([], f) == 0
  {
  }

  /** Main result: over every interleaving, from any first file, cumulative history bytes
      are the replayed base and every decoded send, less the live table, the snapshot in
      flight, what restarts dropped and the intervals of torn writes, modulo 2^64. Nothing
      is counted twice. Without a restart the last two are nothing; with restarts, any
      write of any life may have been cut. */
  lemma Conservation(cfg: Config, first: string, before: seq<Write>, start: string, now: string, acts: seq<Action>)
    requires Recoverable(cfg, first, before, start, acts)
    ensures var s := Run(cfg, Init(cfg, start, now), acts);
            && s.reread <= |s.writes|
            && Same64(s.totals.bytes + InFlight(s) + Sum(s.table, BytesOf) + s.lost + SumOf(Torn(cfg, first, before, s), BytesIn),
                      Opened(cfg.fp, cfg.dec, start, now).bytes + s.sent)
            && (!Restarts(acts) ==> Torn(cfg, first, before, s) == [] && s.lost == 0)
  {
    hide Run;
    hide Opened;
    hide Replay;
    hide RecsOf;
    hide SumOf;
    hide Torn;
    hide AbsorbAll;
    hide ReporterInv;
    hide Restarts;
    hide Recoverable;
    hide InFlight;
    hide Sum;
    var s := Run(cfg, Init(cfg, start, now), acts);
    FileAccounted(cfg, first, before, start, now, acts, BytesIn);
    SentAccounted(cfg, start, now, acts);
    RunCounts(cfg, start, now, acts);
    TotalBytes(cfg, s);
    FirstBytes(cfg, start, now);
    if !Restarts(acts) { NothingTorn(cfg, first, before, start, now, acts); }
    hide CountInv;
    Settle(s.totals.bytes, SumOf(s.replayed, BytesIn) + SumOf(RecsOf(s.writes[s.reread..]), BytesIn),
           Opened(cfg.fp, cfg.dec, start, now).bytes, SumOf(Replay(cfg.dec, start), BytesIn),
           SumOf(RecsOf(s.writes), BytesIn), SumOf(Torn(cfg, first, before, s), BytesIn),
           InFlight(s) + Sum(s.table, BytesOf) + s.lost, s.sent);
  }

  lemma Settle(total: nat, counted: nat, base: nat, replayed: nat, written: nat, torn: nat, rest: nat, sent: nat)
    requires Same64(total, counted) && Same64(base, replayed) && Same64(written + rest, sent)
    requires replayed + written == counted + torn
    ensures Same64(total + rest + torn, base + sent)
  {
    SameAdd(total, counted, torn + rest, torn + rest);
    SameAdd(base, replayed, written + rest, sent);
    SameAdd(replayed, base, written + rest, sent);
  }

  lemma {:induction false} NothingTorn(cfg: Config, first: string, before: seq<Write>, start: string, now: string, acts: seq<Action>)
    requires !Restarts(acts)
    ensures var s := Run(cfg, Init(cfg, start, now), acts);
            s.reread <= |s.writes| && Torn(cfg, first, before, s) == [] && s.lost == 0
    decreases |acts|
  {
    NothingReread(cfg, start, now, acts);
    if acts != [] {
      assert Last(acts) in acts;
      forall a | a in Front(acts) ensures !a.Restart? { assert a in acts; }
      NothingTorn(cfg, first, before, start, now, Front(acts));
      hide Reader.Dispatch;
      hide Take;
      hide Ordered;
      hide Absorb;
    }
  }

  // ----- When every line lands -----

  /** Every line reaches the disk whole. */
  predicate AllLand(acts: seq<Action>) { forall a :: a in acts ==> a.Record? ==> a.landed.None? }

  lemma {:induction false} RunLands(cfg: Config, start: string, now: string, acts: seq<Action>)
    requires AllLand(acts)
    ensures var s := Run(cfg, Init(cfg, start, now), acts);
            s.writes == Full(cfg.fp, RecsOf(s.writes))
    decreases |acts|
  {
    if acts != [] {
      assert Last(acts) in acts;
      RunLands(cfg, start, now, Front(acts));
      hide Marshal;
      hide Reader.Dispatch;
      hide Take;
      hide Ordered;
      hide Absorb;
      hide Opened;
      hide Landing;
    }
  }

  /** From an intact file, with every line landing, nothing is ever torn and every interval
      written is read back. */
  lemma AllReadBack(cfg: Config, start: string, now: string, acts: seq<Action>)
    requires cfg.Sound() && Intact(start) && AllLand(acts) && AllPlausible(acts)
    ensures var s := Run(cfg, Init(cfg, start, now), acts);
            && DiskInv(cfg, start, [], s)
            && Survivors(TallyOf(cfg, start, [] + s.writes)) == Replay(cfg.dec, start) + RecsOf(s.writes)
            && s.replayed == Replay(cfg.dec, start) + RecsOf(s.writes[..s.reread])
            && Torn(cfg, start, [], s) == []
  {
    hide Run;
    hide Replay;
    hide Marshal;
    hide RecsOf;
    hide Survivors;
    hide Full;
    var s := Run(cfg, Init(cfg, start, now), acts);
    RunDisk(cfg, start, [], start, now, acts);
    RunLands(cfg, start, now, acts);
    WholeWrites(cfg, start, s.writes, s.reread);
    WholeWrites(cfg, start, s.writes, |s.writes|);
    assert s.writes[..|s.writes|] == s.writes;
  }

  lemma WholeWrites(cfg: Config, start: string, ws: seq<Write>, k: nat)
    requires Intact(start) && k <= |ws| && ws == Full(cfg.fp, RecsOf(ws)) && AllShort(cfg, ws)
    ensures Survivors(TallyOf(cfg, start, [] + ws[..k])) == Replay(cfg.dec, start) + RecsOf(ws[..k])
    ensures AllGone(cfg.fp, TallyOf(cfg, start, []), ws[..k]) == []
  {
    hide Replay;
    hide Marshal;
    hide RecsOf;
    hide Full;
    var rs := RecsOf(ws[..k]);
    assert [] + ws[..k] == ws[..k];
    IntactStart(cfg.dec, start);
    FullPart(cfg.fp, ws, k);
    ShortRecs(cfg, ws[..k]);
    TalliedFull(cfg.fp, Start(cfg.dec, start), rs);
    NoneGone(cfg.fp, Start(cfg.dec, start), rs);
    NoWrites(cfg, start);
  }

  lemma FullPart(fp: Fp, ws: seq<Write>, k: nat)
    requires k <= |ws| && ws == Full(fp, RecsOf(ws))
    ensures ws[..k] == Full(fp, RecsOf(ws[..k]))
  {
    hide Marshal;
    forall i | 0 <= i < k ensures ws[..k][i] == Full(fp, RecsOf(ws[..k]))[i] {
      assert ws[i] == Full(fp, RecsOf(ws))[i];
    }
  }

  lemma ShortRecs(cfg: Config, ws: seq<Write>)
    requires AllShort(cfg, ws)
    ensures Short(cfg.fp, RecsOf(ws))
  {
    hide Marshal;
    forall r | r in RecsOf(ws) ensures ShortRecord(cfg, r) {
      var i :| 0 <= i < |ws| && RecsOf(ws)[i] == r;
      assert ws[i] in ws;
    }
  }

  lemma NoWrites(cfg: Config, start: string)
    ensures TallyOf(cfg, start, []) == Start(cfg.dec, start)
  {
  }

  /** A restart at this point would read back exactly what is counted. */
  ghost predicate ReadsBack(cfg: Config, s: State) {
    s.recorded <= |s.snaps| && Replay(cfg.dec, s.content) == Counted(s)
  }

  lemma RunReadsBack(cfg: Config, start: string, now: string, acts: seq<Action>)
    requires cfg.Sound() && Intact(start) && AllLand(acts) && AllPlausible(acts)
    ensures var s := Run(cfg, Init(cfg, start, now), acts);
            ReadsBack(cfg, s) && Counted(s) == Replay(cfg.dec, start) + RecsOf(s.writes)
  {
    hide Run;
    hide Replay;
    hide AbsorbAll;
    hide RecsOf;
    hide Survivors;
    hide Full;
    hide Marshal;
    var s := Run(cfg, Init(cfg, start, now), acts);
    hide DiskInv;
    hide AllPrintable;
    hide Printable;
    AllReadBack(cfg, start, now, acts);
    RunCounts(cfg, start, now, acts);
    AllWritten(cfg, start, [], s);
    hide Counted;
    CountedInFull(cfg, s, Replay(cfg.dec, start));
  }

  lemma CountedInFull(cfg: Config, s: State, base: seq<IntervalRecord>)
    requires CountInv(cfg, s) && s.replayed == base + RecsOf(s.writes[..s.reread])
    ensures Counted(s) == base + RecsOf(s.writes)
  {
    hide AbsorbAll;
    hide RecsOf;
    RecsSplit(s.writes, s.reread);
  }

  /** Then, across any number of restarts, the totals are the fold of the first file and of
      every interval recorded since, and no byte recorded is lost. */
  lemma TotalsSurviveRestarts(cfg: Config, start: string, now: string, acts: seq<Action>)
    requires cfg.Sound() && Intact(start) && AllLand(acts) && AllPlausible(acts)
    ensures var s := Run(cfg, Init(cfg, start, now), acts);
            && s.totals == AbsorbAll(cfg.fp, EMPTY, Replay(cfg.dec, start) + RecsOf(s.writes)).(since := s.totals.since)
            && Same64(s.totals.bytes + InFlight(s) + Sum(s.table, BytesOf) + s.lost, Opened(cfg.fp, cfg.dec, start, now).bytes + s.sent)
  {
    hide Run;
    hide Replay;
    hide Opened;
    hide AbsorbAll;
    hide Torn;
    hide RecsOf;
    hide Survivors;
    hide DiskInv;
    hide InFlight;
    hide Sum;
    var s := Run(cfg, Init(cfg, start, now), acts);
    AllReadBack(cfg, start, now, acts);
    RunReadsBack(cfg, start, now, acts);
    RunCounts(cfg, start, now, acts);
    hide SumOf;
    Conservation(cfg, start, [], start, now, acts);
    EmptySum(BytesIn);
  }

  lemma RecsSplit(ws: seq<Write>, k: nat)
    requires k <= |ws|
    ensures RecsOf(ws) == RecsOf(ws[..k]) + RecsOf(ws[k..])
  {
  }
}
