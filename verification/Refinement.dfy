/** The methods against the step machine: what the reader's loop computes, with the
    informers' deliveries in between, and what a reporter's tick computes, some
    interleaving of `Pipeline` computes. */
module Refinement {
  import opened Wrappers
  import opened Words
  import opened Text
  import opened Cache
  import opened FlowTable
  import opened Snapshots
  import opened History
  import LogFile
  import opened Pipeline
  import opened Reader
  import Informer
  import Wire

  // ----- Deliveries one after another -----

  function Flat(ds: seq<seq<Informer.Event>>): seq<Informer.Event>
    decreases |ds|
  {
    if ds == [] then [] else Flat(Front(ds)) + Last(ds)
  }

  lemma {:induction false} HandleAppend(v: Identities, a: seq<Informer.Event>, b: seq<Informer.Event>)
    ensures Informer.HandleAll(v, a + b) == Informer.HandleAll(Informer.HandleAll(v, a), b)
    decreases |b|
  {
    hide Informer.Handle;
    if b == [] {
      assert a + b == a;
    } else {
      assert Front(a + b) == a + Front(b);
      HandleAppend(v, a, Front(b));
    }
  }

  lemma {:induction false} FlatIsAfter(v: Identities, ds: seq<seq<Informer.Event>>)
    ensures Informer.HandleAll(v, Flat(ds)) == After(v, ds)
    decreases |ds|
  {
    if ds != [] {
      FlatIsAfter(v, Front(ds));
      HandleAppend(v, Flat(Front(ds)), Last(ds));
    }
  }

  lemma {:induction false} FlatPart(ds: seq<seq<Informer.Event>>, i: nat)
    requires i <= |ds|
    ensures |Flat(ds[..i])| <= |Flat(ds)| && Flat(ds)[..|Flat(ds[..i])|] == Flat(ds[..i])
    decreases |ds|
  {
    if i == |ds| {
      assert ds[..i] == ds;
    } else {
      assert Front(ds)[..i] == ds[..i];
      FlatPart(Front(ds), i);
    }
  }

  // ----- Runs of deliveries -----

  function Informs(es: seq<Informer.Event>): seq<Action> { seq(|es|, i requires 0 <= i < |es| => Inform(es[i])) }

  function Trail(v: Identities, es: seq<Informer.Event>): seq<Identities> {
    seq(|es|, n requires 0 <= n < |es| => Informer.HandleAll(v, es[..n + 1]))
  }

  lemma {:induction false} RunInforms(cfg: Config, s: State, es: seq<Informer.Event>)
    ensures Run(cfg, s, Informs(es))
         == s.(cache := Informer.HandleAll(s.cache, es), caches := s.caches + Trail(s.cache, es))
    decreases |es|
  {
    hide Informer.Handle;
    if es == [] {
      assert s.caches + Trail(s.cache, es) == s.caches;
    } else {
      assert Front(Informs(es)) == Informs(Front(es)) && Last(Informs(es)) == Inform(Last(es));
      RunInforms(cfg, s, Front(es));
      TrailSnoc(s.cache, es);
    }
  }

  lemma TrailSnoc(v: Identities, es: seq<Informer.Event>)
    requires es != []
    ensures Trail(v, es) == Trail(v, Front(es)) + [Informer.HandleAll(v, es)]
  {
    hide Informer.HandleAll;
    assert es[..|es|] == es;
    forall n | 0 <= n < |es| - 1 ensures Trail(v, Front(es))[n] == Trail(v, es)[n] {
      assert Front(es)[..n + 1] == es[..n + 1];
    }
  }

  lemma {:induction false} RunAppend(cfg: Config, s: State, a: seq<Action>, b: seq<Action>)
    ensures Run(cfg, s, a + b) == Run(cfg, Run(cfg, s, a), b)
    decreases |b|
  {
    hide Step;
    if b == [] {
      assert a + b == a;
    } else {
      assert Front(a + b) == a + Front(b);
      RunAppend(cfg, s, a, Front(b));
    }
  }

  // ----- One arrival -----

  /** Which cache each lookup of the arrival finds. */
  function Marks(s: State, ds: Deliveries): seq<nat>
    requires s.caches != []
  {
    seq(8, i requires 0 <= i < 8 => |s.caches| - 1 + |Flat(ds[..i + 1])|)
  }

  /** The interleaving: everything delivered on the way, then the sample with those views. */
  function ActionsOf(s: State, x: Arrival): seq<Action>
    requires s.caches != []
  {
    if LookedUp(x.raw) then Informs(Flat(x.deliveries)) + [Sample(x.raw, Marks(s, x.deliveries), x.now)]
    else [Sample(x.raw, [], x.now)]
  }

  /** The newest cache is the current one, and no event was recorded after it. */
  predicate Current(s: State) { s.caches != [] && Last(s.caches) == s.cache && s.seen < |s.caches| }

  function WorldOf(s: State): World { World(Counters(s.table, s.execs), s.cache) }

  lemma MarksAdmissible(s: State, t: State, ds: Deliveries)
    requires Current(s) && |t.caches| == |s.caches| + |Flat(ds)| && t.seen == s.seen
    ensures Admissible(t, Marks(s, ds))
  {
    hide Flat;
    var at := Marks(s, ds);
    forall i, j | 0 <= i <= j < 8 ensures |s.caches| - 1 <= at[i] <= at[j] < |t.caches| {
      FlatPart(ds[..j + 1], i + 1);
      assert ds[..j + 1][..i + 1] == ds[..i + 1];
      FlatPart(ds, j + 1);
    }
  }

  lemma MarksSee(s: State, t: State, ds: Deliveries)
    requires Current(s) && t.seen == s.seen && t.caches == s.caches + Trail(s.cache, Flat(ds))
    ensures Admissible(t, Marks(s, ds)) && ViewsAt(t, Marks(s, ds)) == Seen(s.cache, ds)
  {
    MarksAdmissible(s, t, ds);
    hide Flat;
    hide After;
    hide Informer.HandleAll;
    hide Admissible;
    var at := Marks(s, ds);
    forall i | 0 <= i < 8 ensures at[i] < |t.caches| && t.caches[at[i]] == Seen(s.cache, ds)[i] {
      OneMark(s, t, ds, i);
    }
    AdmissibleViews(t, at);
  }

  lemma AdmissibleViews(t: State, at: seq<nat>)
    requires Admissible(t, at)
    ensures forall i :: 0 <= i < 8 ==> at[i] < |t.caches| && ViewsAt(t, at)[i] == t.caches[at[i]]
  {
  }

  lemma OneMark(s: State, t: State, ds: Deliveries, i: nat)
    requires Current(s) && t.caches == s.caches + Trail(s.cache, Flat(ds)) && i < 8
    ensures var k := |s.caches| - 1 + |Flat(ds[..i + 1])|;
            k < |t.caches| && t.caches[k] == After(s.cache, ds[..i + 1])
  {
    hide Flat;
    hide After;
    hide Informer.HandleAll;
    var es, n := Flat(ds), |Flat(ds[..i + 1])|;
    FlatPart(ds, i + 1);
    FlatIsAfter(s.cache, ds[..i + 1]);
    if n == 0 {
      NoneHandled(s.cache);
      assert Flat(ds[..i + 1]) == [];
    } else {
      assert t.caches[|s.caches| - 1 + n] == Trail(s.cache, es)[n - 1] == Informer.HandleAll(s.cache, es[..n]);
    }
  }

  lemma NoneHandled(v: Identities)
    ensures Informer.HandleAll(v, []) == v
  {
  }

  /** A sample looked up in these views has the reader's effect. */
  lemma SampleFeeds(s: State, raw: seq<Byte>, at: seq<nat>, now: string)
    requires LookedUp(raw) ==> Admissible(s, at)
    ensures var t := SampleStep(s, raw, at, now);
            var vs := if Admissible(s, at) then ViewsAt(s, at) else Steady(s.cache);
            && Counters(t.table, t.execs) == Feed(Counters(s.table, s.execs), Dispatch(raw, vs, now))
            && t.cache == s.cache && t.caches == s.caches && (s.caches != [] && s.seen < |s.caches| ==> t.seen < |t.caches|)
  {
    hide Wire.Decode;
    hide Resolved;
    hide Admissible;
    hide ViewsAt;
    hide Apply;
  }

  lemma UnseenViews(raw: seq<Byte>, vs: Views, ws: Views, now: string)
    requires !LookedUp(raw)
    ensures Dispatch(raw, vs, now) == Dispatch(raw, ws, now)
  {
    hide Wire.Decode;
    hide Resolved;
  }

  lemma ArrivalIsRun(cfg: Config, s: State, x: Arrival)
    requires Current(s)
    ensures var t := Run(cfg, s, ActionsOf(s, x));
            WorldOf(t) == Arrive(WorldOf(s), x) && Current(t)
  {
    var ds := x.deliveries;
    if LookedUp(x.raw) {
      var t, a := Run(cfg, s, Informs(Flat(ds))), Sample(x.raw, Marks(s, ds), x.now);
      RunAppend(cfg, s, Informs(Flat(ds)), [a]);
      RunInforms(cfg, s, Flat(ds));
      OneStep(cfg, t, a);
      MarksSee(s, t, ds);
      SampleFeeds(t, x.raw, Marks(s, ds), x.now);
      FlatIsAfter(s.cache, ds);
      TrailEnds(s, Flat(ds));
    } else {
      OneStep(cfg, s, Sample(x.raw, [], x.now));
      SampleFeeds(s, x.raw, [], x.now);
      UnseenViews(x.raw, Steady(s.cache), Seen(s.cache, ds), x.now);
    }
    hide Run;
    hide Dispatch;
    hide Feed;
    hide After;
    hide Seen;
    hide Flat;
    hide Trail;
    hide LookedUp;
    hide SampleStep;
  }

  lemma OneStep(cfg: Config, s: State, a: Action)
    ensures Run(cfg, s, [a]) == Step(cfg, s, a)
  {
    assert Front([a]) == [];
  }

  lemma TrailEnds(s: State, es: seq<Informer.Event>)
    requires s.caches != [] && Last(s.caches) == s.cache
    ensures var caches := s.caches + Trail(s.cache, es);
            Last(caches) == Informer.HandleAll(s.cache, es)
  {
    if es == [] {
      NoneHandled(s.cache);
    } else {
      TrailSnoc(s.cache, es);
    }
  }

  // ----- The loop -----

  ghost function ActionsOfAll(cfg: Config, s: State, xs: seq<Arrival>): (acts: seq<Action>)
    requires Current(s)
    ensures Current(Run(cfg, s, acts)) && WorldOf(Run(cfg, s, acts)) == ArriveAll(WorldOf(s), xs)
    decreases |xs|
  {
    if xs == [] then [] else
    var acts := ActionsOfAll(cfg, s, Front(xs));
    var t := Run(cfg, s, acts);
    ArrivalIsRun(cfg, t, Last(xs));
    RunAppend(cfg, s, acts, ActionsOf(t, Last(xs)));
    acts + ActionsOf(t, Last(xs))
  }

  /** What the reader's loop leaves in the aggregator and the cache, whatever the informers
      deliver between any two of its lookups, a run of the machine from the same point leaves. */
  lemma ReaderIsRun(cfg: Config, content: string, now: string, xs: seq<Arrival>)
    ensures exists acts :: WorldOf(Run(cfg, Init(cfg, content, now), acts))
                           == ArriveAll(World(Counters(map[], 0), Informer.NO_IDENTITIES), xs)
  {
    var s := Init(cfg, content, now);
    var acts := ActionsOfAll(cfg, s, xs);
    assert WorldOf(Run(cfg, s, acts)) == ArriveAll(WorldOf(s), xs);
  }

  // ----- The reporter's tick -----

  /** An undisturbed tick is three steps of the machine in a row. */
  lemma TickIsRun(cfg: Config, s: State, order: seq<string>, now: string, marshalled: bool, landed: nat)
    requires s.reporter.Idle? && Ordered(s.table, order)
    ensures var snap := Take(cfg.fp, cfg.rate, s.table, s.execs, order, now);
            var t := Run(cfg, s, [Reset(order, now), Publish(marshalled), Record(Some(landed))]);
            && t.table == map[] && t.execs == 0 && t.reporter.Idle?
            && t.latest == (if marshalled then Some(snap) else s.latest)
            && t.totals == Absorb(cfg.fp, s.totals, RecordOf(snap))
            && t.content == s.content + LogFile.Landing(cfg.fp, LogFile.Write(RecordOf(snap), landed))
  {
    hide Take;
    hide Ordered;
    hide Absorb;
    hide LogFile.Landing;
    var a, b, c := Reset(order, now), Publish(marshalled), Record(Some(landed));
    assert [a, b, c] == [a] + [b] + [c];
    RunAppend(cfg, s, [a] + [b], [c]);
    RunAppend(cfg, s, [a], [b]);
    OneStep(cfg, s, a);
    OneStep(cfg, Step(cfg, s, a), b);
    OneStep(cfg, Step(cfg, Step(cfg, s, a), b), c);
    hide Run;
  }
}
