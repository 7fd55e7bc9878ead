/** Samples that leave no trace: noise changes nothing at all, and EXEC events only
    the exec counter and its copies. */
module Erasure {
  import opened Wrappers
  import opened Words
  import opened Text
  import opened Float64
  import opened Codec
  import opened LogFile
  import opened FlowTable
  import opened Snapshots
  import opened History
  import opened Pipeline
  import Informer
  import Reader
  import Wire

  // ----- Samples that do not count -----

  /** Received bytes, short samples and unknown types. */
  predicate Noise(a: Action) {
    a.Sample? && match Wire.Decode(a.raw)
                 case None => true
                 case Some(e) => e.kind !in {Wire.EXEC, Wire.CONNECT, Wire.SEND}
  }

  predicate ExecSample(a: Action) {
    a.Sample? && Wire.Decode(a.raw).Some? && Wire.Decode(a.raw).value.kind == Wire.EXEC
  }

  function Without(acts: seq<Action>, drop: Action -> bool): seq<Action>
    decreases |acts|
  {
    if acts == [] then [] else Without(Front(acts), drop) + if drop(Last(acts)) then [] else [Last(acts)]
  }

  /** Noise anywhere in the stream changes nothing: not a snapshot, a total, the ring or the file. */
  lemma {:induction false} NoiseErased(cfg: Config, s: State, acts: seq<Action>)
    ensures Run(cfg, s, Without(acts, Noise)) == Run(cfg, s, acts)
    decreases |acts|
  {
    hide Step;
    hide Noise;
    if acts != [] {
      NoiseErased(cfg, s, Front(acts));
      var kept := Without(Front(acts), Noise);
      if Noise(Last(acts)) {
        NoiseStep(cfg, Run(cfg, s, Front(acts)), Last(acts));
        assert Without(acts, Noise) == kept;
      } else {
        assert Front(Without(acts, Noise)) == kept && Last(Without(acts, Noise)) == Last(acts);
      }
    }
  }

  lemma NoiseStep(cfg: Config, s: State, a: Action)
    requires Noise(a)
    ensures Step(cfg, s, a) == s
  {
    hide Wire.Decode;
    hide Reader.Resolved;
  }

  // ----- EXEC events change only the exec counter and its copies -----

  function BlankSnap(x: Snapshot): Snapshot { x.(execEvents := 0) }
  function BlankRecord(r: IntervalRecord): IntervalRecord { r.(execEvents := 0) }
  function BlankSnaps(xs: seq<Snapshot>): seq<Snapshot> { seq(|xs|, i requires 0 <= i < |xs| => BlankSnap(xs[i])) }
  function BlankRecords(rs: seq<IntervalRecord>): seq<IntervalRecord> {
    seq(|rs|, i requires 0 <= i < |rs| => BlankRecord(rs[i]))
  }
  /** A line's length depends on its exec count, so what landed goes with it. */
  function BlankWrites(ws: seq<Write>): seq<Write> {
    seq(|ws|, i requires 0 <= i < |ws| => Write(BlankRecord(ws[i].rec), 0))
  }
  function BlankReporter(r: Reporter): Reporter {
    match r
    case Took(snap) => Took(BlankSnap(snap))
    case Reported(snap) => Reported(BlankSnap(snap))
    case _ => r
  }
  function BlankTotals(t: Totals): Totals { t.(ring := BlankRecords(t.ring)) }

  /** The state without exec counts, and without the file, whose text repeats them. */
  function Blank(s: State): State {
    s.(execs := 0, content := "",
       latest := if s.latest.None? then None else Some(BlankSnap(s.latest.value)),
       reporter := BlankReporter(s.reporter), totals := BlankTotals(s.totals),
       replayed := BlankRecords(s.replayed), snaps := BlankSnaps(s.snaps), writes := BlankWrites(s.writes))
  }

  lemma BlankSample(s: State, raw: seq<Byte>, at: seq<nat>, now: string)
    ensures Blank(SampleStep(s, raw, at, now)) == Blank(SampleStep(Blank(s), raw, at, now))
    ensures ExecSample(Sample(raw, at, now)) ==> Blank(SampleStep(s, raw, at, now)) == Blank(s)
  {
    hide Reader.NameFrom;
    hide Reader.ZoneFrom;
    hide Wire.Decode;
    hide Apply;
    BlankTwice(s);
    assert Admissible(s, at) <==> Admissible(Blank(s), at);
    if Admissible(s, at) { assert ViewsAt(s, at) == ViewsAt(Blank(s), at); }
  }

  lemma BlankTwice(s: State)
    ensures Blank(Blank(s)) == Blank(s)
  {
    assert BlankRecords(BlankRecords(s.totals.ring)) == BlankRecords(s.totals.ring);
    assert BlankRecords(BlankRecords(s.replayed)) == BlankRecords(s.replayed);
    assert BlankWrites(BlankWrites(s.writes)) == BlankWrites(s.writes);
    assert BlankSnaps(BlankSnaps(s.snaps)) == BlankSnaps(s.snaps);
  }

  lemma BlankReset(cfg: Config, s: State, order: seq<string>, now: string)
    ensures Blank(ResetStep(cfg, s, order, now)) == Blank(ResetStep(cfg, Blank(s), order, now))
  {
    hide Ordered;
    hide Flows;
    hide Cost;
    hide Accumulated;
    BlankTwice(s);
    if s.reporter.Idle? && Ordered(s.table, order) {
      var snap, snap' := Take(cfg.fp, cfg.rate, s.table, s.execs, order, now), Take(cfg.fp, cfg.rate, s.table, 0, order, now);
      assert BlankSnaps(s.snaps + [snap]) == BlankSnaps(s.snaps) + [BlankSnap(snap)];
      assert BlankSnaps(BlankSnaps(s.snaps) + [snap']) == BlankSnaps(BlankSnaps(s.snaps)) + [BlankSnap(snap')];
      assert BlankSnaps(BlankSnaps(s.snaps)) == BlankSnaps(s.snaps);
    }
  }

  lemma BlankPush(ring: seq<IntervalRecord>, r: IntervalRecord)
    ensures BlankRecords(Push(ring, r)) == BlankRecords(Push(BlankRecords(ring), BlankRecord(r)))
  {
  }

  lemma BlankRecorded(cfg: Config, s: State, landed: Option<nat>)
    ensures Blank(RecordStep(cfg, s, landed)) == Blank(RecordStep(cfg, Blank(s), landed))
  {
    hide Marshal;
    hide Landing;
    hide Push;
    BlankTwice(s);
    if s.reporter.Reported? {
      var r := RecordOf(s.reporter.snap);
      assert RecordOf(BlankSnap(s.reporter.snap)) == BlankRecord(r);
      BlankPush(s.totals.ring, r);
      var w, w' := Last(RecordStep(cfg, s, landed).writes), Last(RecordStep(cfg, Blank(s), landed).writes);
      assert BlankWrites(s.writes + [w]) == BlankWrites(BlankWrites(s.writes) + [w']);
    }
  }

  lemma BlankStep(cfg: Config, s: State, a: Action)
    requires !a.Restart?
    ensures Blank(Step(cfg, s, a)) == Blank(Step(cfg, Blank(s), a))
  {
    BlankTwice(s);
    hide SampleStep;
    hide ResetStep;
    hide RecordStep;
    hide Informer.Handle;
    hide BlankRecords;
    hide BlankWrites;
    match a
    case Sample(raw, at, now) => BlankSample(s, raw, at, now);
    case Reset(order, now) => BlankReset(cfg, s, order, now);
    case Record(landed) => BlankRecorded(cfg, s, landed);
    case _ =>
  }

  // ----- Restarts -----

  lemma {:induction false} AbsorbBlank(fp: Fp, t: Totals, rs: seq<IntervalRecord>)
    ensures BlankTotals(AbsorbAll(fp, t, rs)) == BlankTotals(AbsorbAll(fp, BlankTotals(t), BlankRecords(rs)))
    decreases |rs|
  {
    if rs == [] {
      assert BlankRecords(BlankRecords(t.ring)) == BlankRecords(t.ring);
    } else {
      hide Push;
      BlankPush(t.ring, rs[0]);
      var u, v := Absorb(fp, t, rs[0]), Absorb(fp, BlankTotals(t), BlankRecords(rs)[0]);
      assert BlankTotals(u) == BlankTotals(v);
      assert BlankRecords(rs)[1..] == BlankRecords(rs[1..]);
      assert BlankRecords(BlankRecords(rs[1..])) == BlankRecords(rs[1..]);
      AbsorbBlank(fp, u, rs[1..]);
      AbsorbBlank(fp, v, BlankRecords(rs[1..]));
    }
  }

  lemma {:induction false} StampBlank(rs: seq<IntervalRecord>, otherwise: string)
    ensures FirstStamp(BlankRecords(rs), otherwise) == FirstStamp(rs, otherwise)
    decreases |rs|
  {
    if rs != [] {
      assert BlankRecords(rs)[1..] == BlankRecords(rs[1..]);
      StampBlank(rs[1..], otherwise);
    }
  }

  lemma CountedBlank(s: State)
    requires s.recorded <= |s.snaps|
    ensures BlankRecords(Counted(s)) == BlankRecords(Counted(Blank(s)))
  {
  }

  lemma OpenedBlank(cfg: Config, s: State, now: string)
    requires ReadsBack(cfg, s)
    ensures var rs := BlankRecords(Counted(Blank(s)));
            BlankTotals(Opened(cfg.fp, cfg.dec, s.content, now))
            == BlankTotals(AbsorbAll(cfg.fp, BlankTotals(EMPTY), rs)).(since := FirstStamp(rs, now))
  {
    hide Replay;
    hide AbsorbAll;
    hide FirstStamp;
    OpenedIs(cfg.fp, cfg.dec, s.content, now);
    CountedBlank(s);
    AbsorbBlank(cfg.fp, EMPTY, Counted(s));
    StampBlank(Counted(s), now);
  }

  /** Restarts that read back everything counted do not see exec counts either. */
  lemma BlankRestart(cfg: Config, s: State, t: State, now: string)
    requires Blank(s) == Blank(t) && ReadsBack(cfg, s) && ReadsBack(cfg, t)
    ensures Blank(RestartStep(cfg, s, now)) == Blank(RestartStep(cfg, t, now))
  {
    OpenedBlank(cfg, s, now);
    OpenedBlank(cfg, t, now);
    CountedBlank(s);
    CountedBlank(t);
    InFlightBlank(s);
    InFlightBlank(t);
    assert |BlankWrites(s.writes)| == |s.writes| && |BlankWrites(t.writes)| == |t.writes|;
    hide Replay;
    hide Opened;
    hide AbsorbAll;
    hide FirstStamp;
    hide BlankRecords;
    hide BlankTotals;
    hide Counted;
    hide InFlight;
    hide CrossInFlight;
    hide BlankReporter;
    hide Sum;
  }

  lemma InFlightBlank(s: State)
    ensures InFlight(Blank(s)) == InFlight(s) && CrossInFlight(Blank(s)) == CrossInFlight(s)
  {
  }

  /** Every restart of the run reads back everything counted. */
  ghost predicate Legible(cfg: Config, s: State, acts: seq<Action>)
    decreases |acts|
  {
    acts == [] || (Legible(cfg, s, Front(acts)) && (Last(acts).Restart? ==> ReadsBack(cfg, Run(cfg, s, Front(acts)))))
  }

  lemma {:induction false} ErasedFrom(cfg: Config, s: State, acts: seq<Action>)
    requires Legible(cfg, s, acts) && Legible(cfg, s, Without(acts, ExecSample))
    ensures Blank(Run(cfg, s, Without(acts, ExecSample))) == Blank(Run(cfg, s, acts))
    decreases |acts|
  {
    hide Step;
    hide Blank;
    hide ExecSample;
    hide ReadsBack;
    if acts != [] {
      var kept, a := Without(Front(acts), ExecSample), Last(acts);
      if ExecSample(a) {
        assert Without(acts, ExecSample) == kept;
        ErasedFrom(cfg, s, Front(acts));
        ExecStep(cfg, Run(cfg, s, Front(acts)), a);
      } else {
        assert Front(Without(acts, ExecSample)) == kept && Last(Without(acts, ExecSample)) == a;
        ErasedFrom(cfg, s, Front(acts));
        SameStep(cfg, Run(cfg, s, kept), Run(cfg, s, Front(acts)), a);
      }
    }
  }

  lemma SameStep(cfg: Config, s: State, t: State, a: Action)
    requires Blank(s) == Blank(t) && (a.Restart? ==> ReadsBack(cfg, s) && ReadsBack(cfg, t))
    ensures Blank(Step(cfg, s, a)) == Blank(Step(cfg, t, a))
  {
    hide Blank;
    hide ReadsBack;
    if a.Restart? {
      BlankRestart(cfg, s, t, a.now);
    } else {
      hide Step;
      BlankStep(cfg, s, a);
      BlankStep(cfg, t, a);
    }
  }

  lemma {:induction false} WithoutIn(acts: seq<Action>, drop: Action -> bool)
    ensures forall a :: a in Without(acts, drop) ==> a in acts
    decreases |acts|
  {
    if acts != [] { WithoutIn(Front(acts), drop); }
  }

  /** Without restarts, or with every line landing on an intact file. */
  ghost predicate Whole(cfg: Config, start: string, acts: seq<Action>) {
    Restarts(acts) ==> cfg.Sound() && Intact(start) && AllLand(acts) && AllPlausible(acts)
  }

  lemma {:induction false} RunLegible(cfg: Config, start: string, now: string, acts: seq<Action>)
    requires Whole(cfg, start, acts)
    ensures Legible(cfg, Init(cfg, start, now), acts)
    decreases |acts|
  {
    if acts != [] {
      assert Last(acts) in acts;
      assert forall a :: a in Front(acts) ==> a in acts;
      RunLegible(cfg, start, now, Front(acts));
      if Last(acts).Restart? { RunReadsBack(cfg, start, now, Front(acts)); }
    }
  }

  /** Inserting or deleting EXEC events leaves everything else as it was, across any number
      of restarts from files in which every line landed. */
  lemma ExecErased(cfg: Config, start: string, now: string, acts: seq<Action>)
    requires Whole(cfg, start, acts)
    ensures var s := Init(cfg, start, now);
            Blank(Run(cfg, s, Without(acts, ExecSample))) == Blank(Run(cfg, s, acts))
  {
    hide Init;
    hide Run;
    hide Blank;
    WithoutIn(acts, ExecSample);
    RunLegible(cfg, start, now, acts);
    RunLegible(cfg, start, now, Without(acts, ExecSample));
    ErasedFrom(cfg, Init(cfg, start, now), acts);
  }

  lemma ExecStep(cfg: Config, s: State, a: Action)
    requires ExecSample(a)
    ensures Blank(Step(cfg, s, a)) == Blank(s)
  {
    BlankSample(s, a.raw, a.at, a.now);
  }
}
