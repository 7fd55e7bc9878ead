/** The identity cache: three maps behind one lock (pkg/adapters/k8s/cache.go). */
module Cache {
  import opened Wrappers

  datatype PodInfo = PodInfo(name: string, namespace: string, node: string)
  datatype ServiceInfo = ServiceInfo(name: string, namespace: string)
  datatype NodeInfo = NodeInfo(name: string, zone: string)

  /** The cache as a value. */
  datatype Identities = Identities(pods: map<string, PodInfo>, services: map<string, ServiceInfo>, nodes: map<string, NodeInfo>)

  function Get<V>(m: map<string, V>, k: string): Option<V> { if k in m then Some(m[k]) else None }

  class Store {
    var ipMap: map<string, PodInfo>
    var svcMap: map<string, ServiceInfo>
    var nodeMap: map<string, NodeInfo>

    function View(): Identities
      reads this
    {
      Identities(ipMap, svcMap, nodeMap)
    }

    constructor ()
      ensures View() == Identities(map[], map[], map[])
    {
      ipMap, svcMap, nodeMap := map[], map[], map[];
    }

    method SetPod(ip: string, info: PodInfo)
      modifies this
      ensures View() == old(View()).(pods := old(ipMap)[ip := info])
    {
      ipMap := ipMap[ip := info];
    }

    method DeletePod(ip: string)
      modifies this
      ensures View() == old(View()).(pods := old(ipMap) - {ip})
    {
      ipMap := ipMap - {ip};
    }

    method LookupPod(ip: string) returns (r: Option<PodInfo>)
      ensures r == Get(View().pods, ip)
    {
      r := Get(ipMap, ip);
    }

    method SetService(ip: string, info: ServiceInfo)
      modifies this
      ensures View() == old(View()).(services := old(svcMap)[ip := info])
    {
      svcMap := svcMap[ip := info];
    }

    method DeleteService(ip: string)
      modifies this
      ensures View() == old(View()).(services := old(svcMap) - {ip})
    {
      svcMap := svcMap - {ip};
    }

    method LookupService(ip: string) returns (r: Option<ServiceInfo>)
      ensures r == Get(View().services, ip)
    {
      r := Get(svcMap, ip);
    }

    method SetNode(name: string, info: NodeInfo)
      modifies this
      ensures View() == old(View()).(nodes := old(nodeMap)[name := info])
    {
      nodeMap := nodeMap[name := info];
    }

    method DeleteNode(name: string)
      modifies this
      ensures View() == old(View()).(nodes := old(nodeMap) - {name})
    {
      nodeMap := nodeMap - {name};
    }

    method LookupNode(name: string) returns (r: Option<NodeInfo>)
      ensures r == Get(View().nodes, name)
    {
      r := Get(nodeMap, name);
    }
  }
}
