/** Zones on rows traced back to the cluster: every cache a lookup sees is the fold of the
    deliveries made until then, so a zone that is billed is a label that was delivered. */
module Attribution {
  import opened Wrappers
  import opened Words
  import opened Text
  import opened Cache
  import opened FlowTable
  import opened Pipeline
  import opened Billing
  import opened Resolution
  import FlowKey
  import History
  import Informer
  import Reader
  import Snapshots
  import Wire

  /** What the informers delivered since the last start. */
  function Delivered(acts: seq<Action>): seq<Informer.Event>
    decreases |acts|
  {
    if acts == [] then [] else
    match Last(acts)
    case Inform(e) => Delivered(Front(acts)) + [e]
    case Restart(_) => []
    case _ => Delivered(Front(acts))
  }

  /** The lookups of a logged event saw the folds of growing prefixes of the deliveries. */
  ghost predicate SawPrefixes(l: Logged, es: seq<Informer.Event>) {
    && |l.at| == 8
    && (forall i :: 0 <= i < 8 ==> l.at[i] <= |es| && l.views[i] == Informer.HandleAll(Informer.NO_IDENTITIES, es[..l.at[i]]))
    && (forall i, j :: 0 <= i < j < 8 ==> l.at[i] <= l.at[j])
  }

  ghost predicate CachesInv(s: State, es: seq<Informer.Event>) {
    && |s.caches| == |es| + 1
    && s.cache == Informer.HandleAll(Informer.NO_IDENTITIES, es)
    && (forall m :: 0 <= m <= |es| ==> s.caches[m] == Informer.HandleAll(Informer.NO_IDENTITIES, es[..m]))
    && (forall l :: l in s.log ==> SawPrefixes(l, es))
  }

  lemma SampleCaches(s: State, raw: seq<Byte>, at: seq<nat>, now: string, es: seq<Informer.Event>)
    requires CachesInv(s, es)
    ensures CachesInv(SampleStep(s, raw, at, now), es)
  {
    hide Reader.Dispatch;
    hide Wire.Decode;
    hide Informer.HandleAll;
    hide SawPrefixes;
    hide FromSample;
    hide Apply;
    var vs := if Admissible(s, at) then ViewsAt(s, at) else Reader.Steady(s.cache);
    var x := Reader.Dispatch(raw, vs, now);
    DispatchedFlow(raw, vs, now);
    if x.Flow? && Admissible(s, at) {
      var l := Logged(x.event, Wire.Decode(raw).value, vs, at);
      AdmittedSaw(s, l, es);
      hide Admissible;
      assert forall k :: k in s.log + [l] ==> k in s.log || k == l;
    }
  }

  lemma AdmittedSaw(s: State, l: Logged, es: seq<Informer.Event>)
    requires CachesInv(s, es) && Admissible(s, l.at) && l.views == ViewsAt(s, l.at)
    ensures SawPrefixes(l, es)
  {
    hide Informer.HandleAll;
  }

  lemma SawMore(l: Logged, es: seq<Informer.Event>, e: Informer.Event)
    requires SawPrefixes(l, es)
    ensures SawPrefixes(l, es + [e])
  {
    hide Informer.HandleAll;
    forall i | 0 <= i < 8
      ensures l.at[i] <= |es + [e]| && l.views[i] == Informer.HandleAll(Informer.NO_IDENTITIES, (es + [e])[..l.at[i]])
    {
      assert (es + [e])[..l.at[i]] == es[..l.at[i]];
    }
  }

  lemma InformCaches(s: State, e: Informer.Event, es: seq<Informer.Event>)
    requires CachesInv(s, es)
    ensures CachesInv(InformStep(s, e), es + [e])
  {
    hide Informer.Handle;
    var s', more := InformStep(s, e), es + [e];
    assert Front(more) == es && Last(more) == e && more[..|more|] == more;
    forall m | 0 <= m <= |more| ensures s'.caches[m] == Informer.HandleAll(Informer.NO_IDENTITIES, more[..m]) {
      if m <= |es| { assert more[..m] == es[..m]; }
    }
    forall l | l in s'.log ensures SawPrefixes(l, more) { SawMore(l, es, e); }
  }

  lemma {:induction false} RunCaches(cfg: Config, content: string, now: string, acts: seq<Action>)
    ensures CachesInv(Run(cfg, Init(cfg, content, now), acts), Delivered(acts))
    decreases |acts|
  {
    hide SampleStep;
    hide ResetStep;
    hide RecordStep;
    if acts == [] {
      FreshCaches(cfg, content, now);
    } else {
      RunCaches(cfg, content, now, Front(acts));
      StepCaches(cfg, Run(cfg, Init(cfg, content, now), Front(acts)), Last(acts), Delivered(Front(acts)));
    }
  }

  lemma FreshCaches(cfg: Config, content: string, now: string)
    ensures CachesInv(Init(cfg, content, now), [])
  {
  }

  lemma StepCaches(cfg: Config, s: State, a: Action, es: seq<Informer.Event>)
    requires CachesInv(s, es)
    ensures CachesInv(Step(cfg, s, a), match a case Inform(e) => es + [e] case Restart(_) => [] case _ => es)
  {
    hide SawPrefixes;
    hide Informer.HandleAll;
    hide History.Absorb;
    hide History.Opened;
    hide Snapshots.Ordered;
    hide Snapshots.Take;
    match a
    case Sample(raw, at, now) => SampleCaches(s, raw, at, now, es);
    case Inform(e) => InformCaches(s, e, es);
    case Restart(now) => FreshCaches(cfg, s.content, now);
    case _ =>
  }

  /** Every node that ever ran a live pod with this address has neither zone label. */
  ghost predicate Unlabelled(es: seq<Informer.Event>, ip: string) {
    forall m, m', id :: 0 <= m <= m' <= |es| ==> !LabelledBy(es, m, m', ip, id)
  }

  /** Main result: in every reachable state, after orderly deliveries, a row whose end only ever
      was at addresses of pods on nodes without a zone label, or of no pod at all, has no
      zone on that end, is not cross-AZ and costs nothing, however the deliveries fell
      between the lookups. */
  lemma UnlabelledFree(cfg: Config, content: string, now: string, acts: seq<Action>, i: nat, end: End)
    requires PodsOrderly(Delivered(acts)) && NodesOrderly(Delivered(acts))
    requires i < |Run(cfg, Init(cfg, content, now), acts).log|
    requires var s := Run(cfg, Init(cfg, content, now), acts);
             forall j :: Under(s.log, s.log[i].event.Key(), j) ==> Unlabelled(Delivered(acts), FlowKey.Dotted(Address(s.log[j], end)))
    ensures var s := Run(cfg, Init(cfg, content, now), acts);
            var key := s.log[i].event.Key();
            && key in s.table && RowZone(s.table[key], end) == ""
            && !s.table[key].CrossAZ() && s.table[key].CostUSD(cfg.fp, cfg.rate) == 0.0
  {
    hide Run;
    hide FlowEvent.Key;
    hide FromSample;
    hide TakenFrom;
    hide PodsOrderly;
    hide NodesOrderly;
    hide Unlabelled;
    hide SawPrefixes;
    hide TableOf;
    hide ZoneOf;
    RunTable(cfg, content, now, acts);
    RunCaches(cfg, content, now, acts);
    var s, es := Run(cfg, Init(cfg, content, now), acts), Delivered(acts);
    var key := s.log[i].event.Key();
    assert Under(s.log, key, i);
    KeyInTable(s.log, key);
    RowZoneIs(s.log, key, end);
    forall j | Under(s.log, key, j) ensures ZoneOf(s.log[j], end) == "" {
      assert s.log[j] in s.log;
      EventUnzoned(s.log[j], end, es);
    }
    assert end == Source || end == Destination;
  }

  lemma EventUnzoned(l: Logged, end: End, es: seq<Informer.Event>)
    requires FromSample(l) && SawPrefixes(l, es) && PodsOrderly(es) && NodesOrderly(es)
    requires Unlabelled(es, FlowKey.Dotted(Address(l, end)))
    ensures ZoneOf(l, end) == ""
  {
    hide PodsOrderly;
    hide NodesOrderly;
    hide LabelledBy;
    hide Informer.HandleAll;
    hide Reader.NameFrom;
    hide Reader.ZoneFrom;
    hide Wire.Classify;
    var m, m' := l.at[ZoneView(end)], l.at[ZoneView(end) + 1];
    ZoneIsLabel(es, m, m', FlowKey.Dotted(Address(l, end)));
    assert ZoneOf(l, end) == Reader.ZoneFrom(l.views[ZoneView(end)], l.views[ZoneView(end) + 1], FlowKey.Dotted(Address(l, end)));
  }
}
