/** What a lookup finds against what is live in the cluster: names and zones told from the
    deliveries alone (pkg/adapters/ebpf/reader.go, pkg/adapters/k8s/informer.go). */
module Resolution {
  import opened Text
  import opened Cache
  import opened AddressIndex
  import opened Informer
  import opened Reader

  // ----- Live pods and services -----

  /** The live pods, each as last delivered. */
  function LivePods(es: seq<Event>): map<Id, Pod>
    decreases |es|
  {
    if es == [] then map[] else
    var live := LivePods(Front(es));
    match Last(es)
    case PodAdd(Object(p)) => live[(p.namespace, p.name) := p]
    case PodUpdate(Object(p)) => live[(p.namespace, p.name) := p]
    case PodDelete(Object(p)) => live - {(p.namespace, p.name)}
    case PodDelete(Tombstone(id)) => live - {id}
    case _ => live
  }

  /** The owners the address index speaks of are the live pods. */
  ghost predicate OwnersAre(owners: Live<PodInfo>, live: map<Id, Pod>) {
    && (forall id :: id in live <==> id in owners)
    && (forall id :: id in live ==> owners[id].ip == live[id].podIP && owners[id].info.name == live[id].name
                                     && owners[id].info.namespace == live[id].namespace
                                     && owners[id].info.node == live[id].nodeName
                                     && id == (live[id].namespace, live[id].name))
  }

  lemma {:induction false} OwnersAreLive(es: seq<Event>)
    ensures OwnersAre(LiveRun(map[], AllPodOps(es)), LivePods(es))
    decreases |es|
  {
    if es != [] {
      OwnersAreLive(Front(es));
      var ops, more := AllPodOps(Front(es)), PodOps(Last(es));
      if more == [] {
        assert ops + more == ops;
      } else {
        assert |more| == 1 && Front(ops + more) == ops && Last(ops + more) == more[0];
      }
    }
  }

  function LiveServiceStep(live: map<Id, Service>, e: Event): map<Id, Service> {
    match e
    case ServiceAdd(Object(s)) => live[(s.namespace, s.name) := s]
    case ServiceUpdate(Object(s)) => live[(s.namespace, s.name) := s]
    case ServiceDelete(Object(s)) => live - {(s.namespace, s.name)}
    case ServiceDelete(Tombstone(id)) => live - {id}
    case _ => live
  }

  /** The live services, each as last delivered. */
  function LiveServices(es: seq<Event>): map<Id, Service>
    decreases |es|
  {
    if es == [] then map[] else LiveServiceStep(LiveServices(Front(es)), Last(es))
  }

  ghost predicate ServiceOwnersAre(owners: Live<ServiceInfo>, live: map<Id, Service>) {
    && (forall id :: id in live <==> id in owners)
    && (forall id :: id in live ==>
          && owners[id].ip == (if live[id].clusterIP == "None" then "" else live[id].clusterIP)
          && owners[id].info.name == live[id].name && owners[id].info.namespace == live[id].namespace
          && id == (live[id].namespace, live[id].name))
  }

  lemma {:induction false} ServiceOwnersAreLive(es: seq<Event>)
    ensures ServiceOwnersAre(LiveRun(map[], AllServiceOps(es)), LiveServices(es))
    decreases |es|
  {
    if es != [] {
      ServiceOwnersAreLive(Front(es));
      var ops, more := AllServiceOps(Front(es)), ServiceOps(Last(es));
      if more == [] {
        assert ops + more == ops;
      } else {
        assert |more| == 1 && Front(ops + more) == ops && Last(ops + more) == more[0];
        ServiceOwnersStep(LiveRun(map[], ops), LiveServices(Front(es)), Last(es));
      }
    }
  }

  lemma ServiceOwnersStep(owners: Live<ServiceInfo>, live: map<Id, Service>, e: Event)
    requires ServiceOwnersAre(owners, live) && ServiceOps(e) != []
    ensures ServiceOwnersAre(LiveStep(owners, ServiceOps(e)[0]), LiveServiceStep(live, e))
  {
  }

  // ----- Names -----

  /** Live addresses stayed distinct, and every delivery was faithful. */
  ghost predicate PodsOrderly(es: seq<Event>) { AlwaysDistinct(AllPodOps(es)) && AlwaysFaithful(AllPodOps(es)) }
  ghost predicate ServicesOrderly(es: seq<Event>) { AlwaysDistinct(AllServiceOps(es)) && AlwaysFaithful(AllServiceOps(es)) }

  /** No node's delete was missed while the node was known. */
  ghost predicate NodesOrderly(es: seq<Event>) { forall n :: 0 <= n < |es| ==> !Missed(es[..n], es[n]) }

  predicate PodHas(live: map<Id, Pod>, id: Id, ip: string) { id in live && live[id].podIP == ip && ip != "" }

  ghost predicate PodKnown(es: seq<Event>, ip: string) { exists id :: PodHas(LivePods(es), id, ip) }

  predicate ServiceHas(live: map<Id, Service>, id: Id, ip: string) {
    id in live && live[id].clusterIP == ip && ip != "" && ip != "None"
  }

  ghost predicate ServiceKnown(es: seq<Event>, ip: string) { exists id :: ServiceHas(LiveServices(es), id, ip) }

  lemma PodsIndexed(es: seq<Event>)
    requires PodsOrderly(es)
    ensures var pods := HandleAll(NO_IDENTITIES, es).pods;
            && (forall id :: id in LivePods(es) && LivePods(es)[id].podIP != "" ==>
                  var p := LivePods(es)[id];
                  p.podIP in pods && pods[p.podIP] == PodInfo(p.name, p.namespace, p.nodeName) && id == (p.namespace, p.name))
            && forall ip :: ip in pods ==> PodKnown(es, ip)
  {
    hide HandleAll;
    hide AllPodOps;
    hide AlwaysDistinct;
    hide AlwaysFaithful;
    hide LiveRun;
    hide LivePods;
    PodMapAgrees(es);
    OwnersAreLive(es);
    var owners, pods := LiveRun(map[], AllPodOps(es)), HandleAll(NO_IDENTITIES, es).pods;
    forall id | id in LivePods(es) && LivePods(es)[id].podIP != ""
      ensures var p := LivePods(es)[id];
              p.podIP in pods && pods[p.podIP] == PodInfo(p.name, p.namespace, p.nodeName) && id == (p.namespace, p.name)
    {
      assert Owns(owners, id, LivePods(es)[id].podIP);
    }
    forall ip | ip in pods ensures PodKnown(es, ip) {
      var id :| Owns(owners, id, ip);
      assert PodHas(LivePods(es), id, ip);
    }
  }

  lemma ServicesIndexed(es: seq<Event>)
    requires ServicesOrderly(es)
    ensures var services := HandleAll(NO_IDENTITIES, es).services;
            && (forall id :: id in LiveServices(es) && LiveServices(es)[id].clusterIP != "" && LiveServices(es)[id].clusterIP != "None" ==>
                  var s := LiveServices(es)[id];
                  s.clusterIP in services && services[s.clusterIP] == ServiceInfo(s.name, s.namespace) && id == (s.namespace, s.name))
            && forall ip :: ip in services ==> ServiceKnown(es, ip)
  {
    hide HandleAll;
    hide AllServiceOps;
    hide AlwaysDistinct;
    hide AlwaysFaithful;
    hide LiveRun;
    hide LiveServices;
    ServiceMapAgrees(es);
    ServiceOwnersAreLive(es);
    var owners, services := LiveRun(map[], AllServiceOps(es)), HandleAll(NO_IDENTITIES, es).services;
    forall id | id in LiveServices(es) && LiveServices(es)[id].clusterIP != "" && LiveServices(es)[id].clusterIP != "None"
      ensures var s := LiveServices(es)[id];
              s.clusterIP in services && services[s.clusterIP] == ServiceInfo(s.name, s.namespace) && id == (s.namespace, s.name)
    {
      assert Owns(owners, id, LiveServices(es)[id].clusterIP);
    }
    forall ip | ip in services ensures ServiceKnown(es, ip) {
      var id :| Owns(owners, id, ip);
      assert ServiceHas(LiveServices(es), id, ip);
    }
  }

  /** Main result: after any run of orderly deliveries a live pod's address is named after that
      pod, and its zone is the zone label of that pod's live node, the old label if there
      is no new one, and none if there is neither or it says "unknown". */
  lemma LivePodResolved(es: seq<Event>, id: Id)
    requires PodsOrderly(es) && NodesOrderly(es)
    requires id in LivePods(es) && LivePods(es)[id].podIP != ""
    ensures var v := HandleAll(NO_IDENTITIES, es);
            var p, nodes := LivePods(es)[id], LiveNodes(es);
            var labels := if p.nodeName != "" && p.nodeName in nodes then nodes[p.nodeName].labels else map[];
            var zone := if "topology.kubernetes.io/zone" in labels then labels["topology.kubernetes.io/zone"]
                        else if "failure-domain.beta.kubernetes.io/zone" in labels then labels["failure-domain.beta.kubernetes.io/zone"]
                        else "";
            && NameFrom(v, v, p.podIP) == "pod:" + id.0 + "/" + id.1
            && ZoneFrom(v, v, p.podIP) == if zone == "unknown" then "" else zone
  {
    hide HandleAll;
    hide LivePods;
    hide LiveNodes;
    hide PodsOrderly;
    hide Missed;
    PodsIndexed(es);
    NodeMapAgrees(es);
    assert es[..|es|] == es;
  }

  /** A live service's cluster IP is named after that service, unless a pod has the address. */
  lemma LiveServiceResolved(es: seq<Event>, id: Id)
    requires ServicesOrderly(es) && id in LiveServices(es)
    requires LiveServices(es)[id].clusterIP != "" && LiveServices(es)[id].clusterIP != "None"
    requires LiveServices(es)[id].clusterIP !in HandleAll(NO_IDENTITIES, es).pods
    ensures var v, ip := HandleAll(NO_IDENTITIES, es), LiveServices(es)[id].clusterIP;
            NameFrom(v, v, ip) == "svc:" + id.0 + "/" + id.1 && ZoneFrom(v, v, ip) == ""
  {
    hide HandleAll;
    hide LiveServices;
    hide ServicesOrderly;
    ServicesIndexed(es);
  }

  /** An address that is no live pod's and no live service's is reported as it is, without a zone. */
  lemma UnknownAddress(es: seq<Event>, ip: string)
    requires PodsOrderly(es) && ServicesOrderly(es)
    requires forall id :: id in LivePods(es) ==> LivePods(es)[id].podIP != ip
    requires forall id :: id in LiveServices(es) ==> LiveServices(es)[id].clusterIP != ip
    ensures var v := HandleAll(NO_IDENTITIES, es);
            NameFrom(v, v, ip) == ip && ZoneFrom(v, v, ip) == ""
  {
    hide HandleAll;
    hide LivePods;
    hide LiveServices;
    hide PodsOrderly;
    hide ServicesOrderly;
    PodsIndexed(es);
    ServicesIndexed(es);
  }

  /** Whatever is delivered, no pod is kept without an address and no headless service at all. */
  lemma {:induction false} NeverKept(es: seq<Event>)
    ensures var v := HandleAll(NO_IDENTITIES, es);
            "" !in v.pods && "" !in v.services && "None" !in v.services
    decreases |es|
  {
    if es != [] { NeverKept(Front(es)); }
  }

  // ----- Zones found while deliveries go on -----

  lemma {:induction false} OpsPart(es: seq<Event>, m: nat)
    requires m <= |es|
    ensures |AllPodOps(es[..m])| <= |AllPodOps(es)| && AllPodOps(es)[..|AllPodOps(es[..m])|] == AllPodOps(es[..m])
    decreases |es|
  {
    hide PodOps;
    if m == |es| {
      assert es[..m] == es;
    } else {
      assert Front(es)[..m] == es[..m];
      OpsPart(Front(es), m);
    }
  }

  lemma PodsOrderlyBefore(es: seq<Event>, m: nat)
    requires PodsOrderly(es) && m <= |es|
    ensures PodsOrderly(es[..m])
  {
    hide AllPodOps;
    hide LiveRun;
    hide DistinctOwners;
    hide Faithful;
    OpsPart(es, m);
    var ops, part := AllPodOps(es), AllPodOps(es[..m]);
    assert forall n :: 0 <= n <= |part| ==> part[..n] == ops[..n];
    assert forall n :: 0 <= n < |part| ==> part[n] == ops[n];
  }

  lemma NodesRightAt(es: seq<Event>, m: nat)
    requires NodesOrderly(es) && m <= |es|
    ensures NodesAgree(es[..m])
  {
    hide Missed;
    hide NodesAgree;
    NodeMapAgrees(es);
  }

  /** The pods delivered by m put a pod at this address, and the nodes delivered by m' give
      its node a zone label. */
  ghost predicate LabelledBy(es: seq<Event>, m: nat, m': nat, ip: string, id: Id)
    requires m <= |es| && m' <= |es|
  {
    && id in LivePods(es[..m]) && LivePods(es[..m])[id].podIP == ip
    && var node := LivePods(es[..m])[id].nodeName;
       && node in LiveNodes(es[..m'])
       && ("topology.kubernetes.io/zone" in LiveNodes(es[..m'])[node].labels
           || "failure-domain.beta.kubernetes.io/zone" in LiveNodes(es[..m'])[node].labels)
  }

  /** A zone found, the pod at one moment and the node at a later one, is always a label. */
  lemma ZoneIsLabel(es: seq<Event>, m: nat, m': nat, ip: string)
    requires PodsOrderly(es) && NodesOrderly(es) && m <= m' <= |es|
    ensures ZoneFrom(HandleAll(NO_IDENTITIES, es[..m]), HandleAll(NO_IDENTITIES, es[..m']), ip) != "" ==>
              exists id :: LabelledBy(es, m, m', ip, id)
  {
    hide HandleAll;
    hide LivePods;
    hide LiveNodes;
    PodsOrderlyBefore(es, m);
    NodesRightAt(es, m');
    hide PodsOrderly;
    hide NodesOrderly;
    PodsIndexed(es[..m]);
    var v, w := HandleAll(NO_IDENTITIES, es[..m]), HandleAll(NO_IDENTITIES, es[..m']);
    if ZoneFrom(v, w, ip) != "" {
      assert ip in v.pods && PodKnown(es[..m], ip);
      var id :| PodHas(LivePods(es[..m]), id, ip);
      assert LabelledBy(es, m, m', ip, id);
    }
  }
}
