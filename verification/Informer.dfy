/** The nine informer handlers and the cache they keep (pkg/adapters/k8s/informer.go). */
module Informer {
  import opened Wrappers
  import opened Text
  import opened Cache
  import opened AddressIndex

  datatype Pod = Pod(namespace: string, name: string, podIP: string, nodeName: string)
  datatype Service = Service(namespace: string, name: string, clusterIP: string)
  datatype Node = Node(name: string, labels: map<string, string>)

  /** What a handler is called with: the object, or (for a missed delete) a tombstone,
      which every handler's type assertion turns away. */
  datatype Delivered<T> = Object(value: T) | Tombstone(id: Id)

  datatype Event =
    | PodAdd(pod: Delivered<Pod>) | PodUpdate(pod: Delivered<Pod>) | PodDelete(pod: Delivered<Pod>)
    | ServiceAdd(service: Delivered<Service>) | ServiceUpdate(service: Delivered<Service>)
    | ServiceDelete(service: Delivered<Service>)
    | NodeAdd(node: Delivered<Node>) | NodeUpdate(node: Delivered<Node>) | NodeDelete(node: Delivered<Node>)

  const ZONE := "topology.kubernetes.io/zone"
  const OLD_ZONE := "failure-domain.beta.kubernetes.io/zone"
  const UNKNOWN := "unknown"

  function ZoneFromLabels(labels: map<string, string>): string {
    if ZONE in labels then labels[ZONE] else if OLD_ZONE in labels then labels[OLD_ZONE] else UNKNOWN
  }

  function InfoOfPod(p: Pod): PodInfo { PodInfo(p.name, p.namespace, p.nodeName) }
  function InfoOfService(s: Service): ServiceInfo { ServiceInfo(s.name, s.namespace) }
  function InfoOfNode(n: Node): NodeInfo { NodeInfo(n.name, ZoneFromLabels(n.labels)) }

  predicate HasClusterIP(s: Service) { s.clusterIP != "" && s.clusterIP != "None" }

  function SeenPod(v: Identities, o: Delivered<Pod>): Identities {
    if o.Tombstone? || o.value.podIP == "" then v
    else v.(pods := v.pods[o.value.podIP := InfoOfPod(o.value)])
  }

  function SeenService(v: Identities, o: Delivered<Service>): Identities {
    if o.Tombstone? || !HasClusterIP(o.value) then v
    else v.(services := v.services[o.value.clusterIP := InfoOfService(o.value)])
  }

  function SeenNode(v: Identities, o: Delivered<Node>): Identities {
    if o.Tombstone? then v else v.(nodes := v.nodes[o.value.name := InfoOfNode(o.value)])
  }

  /** The effect of one delivery on the cache. */
  function Handle(v: Identities, e: Event): Identities {
    match e
    case PodAdd(o) => SeenPod(v, o)
    case PodUpdate(o) => SeenPod(v, o)
    case PodDelete(o) => if o.Tombstone? || o.value.podIP == "" then v else v.(pods := v.pods - {o.value.podIP})
    case ServiceAdd(o) => SeenService(v, o)
    case ServiceUpdate(o) => SeenService(v, o)
    case ServiceDelete(o) =>
      if o.Tombstone? || o.value.clusterIP == "" then v else v.(services := v.services - {o.value.clusterIP})
    case NodeAdd(o) => SeenNode(v, o)
    case NodeUpdate(o) => SeenNode(v, o)
    case NodeDelete(o) => if o.Tombstone? then v else v.(nodes := v.nodes - {o.value.name})
  }

  function HandleAll(v: Identities, es: seq<Event>): Identities
    decreases |es|
  {
    if es == [] then v else Handle(HandleAll(v, Front(es)), Last(es))
  }

  const NO_IDENTITIES := Identities(map[], map[], map[])

  // ----- The handlers -----

  method StorePod(cache: Store, obj: Delivered<Pod>)
    modifies cache
    ensures cache.View() == SeenPod(old(cache.View()), obj)
    ensures cache.svcMap == old(cache.svcMap) && cache.nodeMap == old(cache.nodeMap)
    ensures cache.ipMap == if obj.Object? && obj.value.podIP != ""
            then old(cache.ipMap)[obj.value.podIP := PodInfo(obj.value.name, obj.value.namespace, obj.value.nodeName)]
            else old(cache.ipMap)
  {
    if obj.Tombstone? || obj.value.podIP == "" { return; }
    cache.SetPod(obj.value.podIP, PodInfo(obj.value.name, obj.value.namespace, obj.value.nodeName));
  }

  method StoreService(cache: Store, obj: Delivered<Service>)
    modifies cache
    ensures cache.View() == SeenService(old(cache.View()), obj)
    ensures cache.ipMap == old(cache.ipMap) && cache.nodeMap == old(cache.nodeMap)
    ensures cache.svcMap == if obj.Object? && obj.value.clusterIP != "" && obj.value.clusterIP != "None"
            then old(cache.svcMap)[obj.value.clusterIP := ServiceInfo(obj.value.name, obj.value.namespace)]
            else old(cache.svcMap)
  {
    if obj.Tombstone? || obj.value.clusterIP == "" || obj.value.clusterIP == "None" { return; }
    cache.SetService(obj.value.clusterIP, ServiceInfo(obj.value.name, obj.value.namespace));
  }

  method StoreNode(cache: Store, obj: Delivered<Node>)
    modifies cache
    ensures cache.View() == SeenNode(old(cache.View()), obj)
    ensures cache.ipMap == old(cache.ipMap) && cache.svcMap == old(cache.svcMap)
    ensures obj.Tombstone? ==> cache.nodeMap == old(cache.nodeMap)
    ensures obj.Object? ==>
              var labels := obj.value.labels;
              var zone := if "topology.kubernetes.io/zone" in labels then labels["topology.kubernetes.io/zone"]
                          else if "failure-domain.beta.kubernetes.io/zone" in labels then labels["failure-domain.beta.kubernetes.io/zone"]
                          else "unknown";
              cache.nodeMap == old(cache.nodeMap)[obj.value.name := NodeInfo(obj.value.name, zone)]
  {
    if obj.Tombstone? { return; }
    cache.SetNode(obj.value.name, NodeInfo(obj.value.name, ZoneFromLabels(obj.value.labels)));
  }

  /** Dispatch of one delivery to its handler. */
  method Deliver(cache: Store, e: Event)
    modifies cache
    ensures cache.View() == Handle(old(cache.View()), e)
  {
    match e {
      case PodAdd(o) => StorePod(cache, o);
      case PodUpdate(o) => StorePod(cache, o);
      case PodDelete(o) =>
        if o.Object? && o.value.podIP != "" { cache.DeletePod(o.value.podIP); }
      case ServiceAdd(o) => StoreService(cache, o);
      case ServiceUpdate(o) => StoreService(cache, o);
      case ServiceDelete(o) =>
        if o.Object? && o.value.clusterIP != "" { cache.DeleteService(o.value.clusterIP); }
      case NodeAdd(o) => StoreNode(cache, o);
      case NodeUpdate(o) => StoreNode(cache, o);
      case NodeDelete(o) =>
        if o.Object? { cache.DeleteNode(o.value.name); }
    }
  }

  // ----- What each kind of delivery says about the live objects -----

  function Seen<T, I>(o: Delivered<T>, id: T -> Id, owner: T -> Owner<I>): seq<Op<I>> {
    if o.Object? then [Put(id(o.value), owner(o.value))] else []
  }

  function Gone<T, I>(o: Delivered<T>, id: T -> Id, address: T -> string): seq<Op<I>> {
    if o.Object? then [Drop(id(o.value), address(o.value))] else [Drop(o.id, "")]
  }

  function PodId(p: Pod): Id { (p.namespace, p.name) }
  function PodOwner(p: Pod): Owner<PodInfo> { Owner(p.podIP, InfoOfPod(p)) }
  function PodAddress(p: Pod): string { p.podIP }

  function ServiceId(s: Service): Id { (s.namespace, s.name) }
  function ServiceOwner(s: Service): Owner<ServiceInfo> {
    Owner(if HasClusterIP(s) then s.clusterIP else "", InfoOfService(s))
  }
  function ServiceAddress(s: Service): string { s.clusterIP }

  function PodOps(e: Event): seq<Op<PodInfo>> {
    match e
    case PodAdd(o) => Seen(o, PodId, PodOwner)
    case PodUpdate(o) => Seen(o, PodId, PodOwner)
    case PodDelete(o) => Gone(o, PodId, PodAddress)
    case _ => []
  }

  function ServiceOps(e: Event): seq<Op<ServiceInfo>> {
    match e
    case ServiceAdd(o) => Seen(o, ServiceId, ServiceOwner)
    case ServiceUpdate(o) => Seen(o, ServiceId, ServiceOwner)
    case ServiceDelete(o) => Gone(o, ServiceId, ServiceAddress)
    case _ => []
  }

  function AllPodOps(es: seq<Event>): seq<Op<PodInfo>>
    decreases |es|
  {
    if es == [] then [] else AllPodOps(Front(es)) + PodOps(Last(es))
  }

  function AllServiceOps(es: seq<Event>): seq<Op<ServiceInfo>>
    decreases |es|
  {
    if es == [] then [] else AllServiceOps(Front(es)) + ServiceOps(Last(es))
  }

  lemma IndexRunAppend<I>(index: map<string, I>, ops: seq<Op<I>>, more: seq<Op<I>>)
    requires |more| <= 1
    ensures IndexRun(index, ops + more) == if more == [] then IndexRun(index, ops) else IndexStep(IndexRun(index, ops), more[0])
  {
    if more == [] {
      assert ops + more == ops;
    } else {
      assert Front(ops + more) == ops && Last(ops + more) == more[0];
    }
  }

  lemma HandleIsStep(v: Identities, e: Event)
    ensures |PodOps(e)| <= 1 && |ServiceOps(e)| <= 1
    ensures Handle(v, e).pods == if PodOps(e) == [] then v.pods else IndexStep(v.pods, PodOps(e)[0])
    ensures Handle(v, e).services == if ServiceOps(e) == [] then v.services else IndexStep(v.services, ServiceOps(e)[0])
  {
  }

  /** The cache's pod and service maps are the indexes of the deliveries. */
  lemma {:induction false} CacheIsIndex(es: seq<Event>)
    ensures HandleAll(NO_IDENTITIES, es).pods == IndexRun(map[], AllPodOps(es))
    ensures HandleAll(NO_IDENTITIES, es).services == IndexRun(map[], AllServiceOps(es))
    decreases |es|
  {
    hide Handle;
    hide PodOps;
    hide ServiceOps;
    hide IndexStep;
    if es != [] {
      CacheIsIndex(Front(es));
      HandleIsStep(HandleAll(NO_IDENTITIES, Front(es)), Last(es));
      IndexRunAppend(map[], AllPodOps(Front(es)), PodOps(Last(es)));
      IndexRunAppend(map[], AllServiceOps(Front(es)), ServiceOps(Last(es)));
    }
  }

  function PodInfoId(i: PodInfo): Id { (i.namespace, i.name) }
  function ServiceInfoId(i: ServiceInfo): Id { (i.namespace, i.name) }

  lemma {:induction false} OpsIdentified(es: seq<Event>)
    ensures Identified(AllPodOps(es), PodInfoId) && Identified(AllServiceOps(es), ServiceInfoId)
    decreases |es|
  {
    if es != [] {
      OpsIdentified(Front(es));
      OneIdentified(Last(es));
      hide PodOps;
      hide ServiceOps;
    }
  }

  lemma OneIdentified(e: Event)
    ensures Identified(PodOps(e), PodInfoId) && Identified(ServiceOps(e), ServiceInfoId)
  {
  }

  /** Main result: the pod map is the IP index of the live pods at every point of the run if
      and only if no two live pods ever shared an IP, no pod's IP changed or was cleared
      once set, every delete named the IP its pod had, and no tombstone stood for a pod
      with an IP. */
  lemma PodMapAgrees(es: seq<Event>)
    ensures AlwaysAgrees(AllPodOps(es)) <==> AlwaysDistinct(AllPodOps(es)) && AlwaysFaithful(AllPodOps(es))
    ensures AlwaysAgrees(AllPodOps(es)) ==>
              Agrees(HandleAll(NO_IDENTITIES, es).pods, LiveRun(map[], AllPodOps(es)))
  {
    var ops := AllPodOps(es);
    OpsIdentified(es);
    RunAgreesExactly(ops, PodInfoId);
    CacheIsIndex(es);
    assert ops[..|ops|] == ops;
  }

  /** Likewise for services and cluster IPs; a headless service owns no address. */
  lemma ServiceMapAgrees(es: seq<Event>)
    ensures AlwaysAgrees(AllServiceOps(es)) <==> AlwaysDistinct(AllServiceOps(es)) && AlwaysFaithful(AllServiceOps(es))
    ensures AlwaysAgrees(AllServiceOps(es)) ==>
              Agrees(HandleAll(NO_IDENTITIES, es).services, LiveRun(map[], AllServiceOps(es)))
  {
    var ops := AllServiceOps(es);
    OpsIdentified(es);
    RunAgreesExactly(ops, ServiceInfoId);
    CacheIsIndex(es);
    assert ops[..|ops|] == ops;
  }

  // ----- Nodes -----

  /** The live nodes, each with its latest labels. */
  function LiveNodes(es: seq<Event>): map<string, Node>
    decreases |es|
  {
    if es == [] then map[] else
    var live := LiveNodes(Front(es));
    match Last(es)
    case NodeAdd(Object(n)) => live[n.name := n]
    case NodeUpdate(Object(n)) => live[n.name := n]
    case NodeDelete(Object(n)) => live - {n.name}
    case NodeDelete(Tombstone(id)) => live - {id.1}
    case _ => live
  }

  function ZonesOf(live: map<string, Node>): map<string, NodeInfo> {
    map n | n in live :: InfoOfNode(live[n])
  }

  ghost predicate NodesAgree(es: seq<Event>) {
    HandleAll(NO_IDENTITIES, es).nodes == ZonesOf(LiveNodes(es))
  }

  /** A missed delete of a node that is still known. */
  predicate Missed(es: seq<Event>, e: Event) {
    e.NodeDelete? && e.node.Tombstone? && e.node.id.1 in LiveNodes(es)
  }

  lemma NodeStep(es: seq<Event>, e: Event)
    requires NodesAgree(es)
    ensures NodesAgree(es + [e]) <==> !Missed(es, e)
  {
    assert Front(es + [e]) == es;
    var before, after := ZonesOf(LiveNodes(es)), ZonesOf(LiveNodes(es + [e]));
    if Missed(es, e) {
      assert e.node.id.1 in before && e.node.id.1 !in after;
    } else {
      assert HandleAll(NO_IDENTITIES, es + [e]).nodes == after;
    }
  }

  /** Main result: the node map gives each live node its latest zone at every point of
      the run if and only if no tombstone stood for a live node. */
  lemma {:induction false} NodeMapAgrees(es: seq<Event>)
    ensures (forall n :: 0 <= n <= |es| ==> NodesAgree(es[..n])) <==>
            (forall n :: 0 <= n < |es| ==> !Missed(es[..n], es[n]))
    decreases |es|
  {
    if es != [] {
      var before := Front(es);
      NodeMapAgrees(before);
      assert forall n :: 0 <= n <= |before| ==> es[..n] == before[..n];
      assert before[..|before|] == before && es[..|es|] == es == before + [Last(es)];
      if NodesAgree(before) { NodeStep(before, Last(es)); }
      assert NodesAgree(es[..|before|]) <==> NodesAgree(before);
      assert Missed(es[..|before|], es[|before|]) <==> Missed(before, Last(es));
      assert (forall n :: 0 <= n <= |es| ==> NodesAgree(es[..n])) <==>
             (forall n :: 0 <= n <= |before| ==> NodesAgree(before[..n])) && NodesAgree(es[..|es|]);
    }
  }
}
