/** Usage totals over nodes and pods (pkg/models/nodes.go, pkg/api/usage.go). */
module Usage {
  const READY := "Ready"

  datatype Node = Node(id: string, status: string, cpuCapacity: int, memoryCapacity: int, podCapacity: int)

  datatype Pod = Pod(nodeId: string, cpuRequests: int, cpuLimits: int, memoryRequests: int, memoryLimits: int)

  // --- the records in place ---

  /** The memory and cpu records have the same fields. */
  datatype Amount = Amount(capacity: int, request: int, limit: int) {
    function Plus(o: Amount): Amount { Amount(capacity + o.capacity, request + o.request, limit + o.limit) }
  }

  /** Everything a node usage record says. */
  datatype Total = Total(memory: Amount, cpu: Amount, podCapacity: int, podCount: int, count: int, ready: int, notReady: int) {
    function Plus(o: Total): Total {
      Total(memory.Plus(o.memory), cpu.Plus(o.cpu), podCapacity + o.podCapacity, podCount + o.podCount,
        count + o.count, ready + o.ready, notReady + o.notReady)
    }
  }

  const Zero := Total(Amount(0, 0, 0), Amount(0, 0, 0), 0, 0, 0, 0, 0)

  class AmountUsage {
    var capacity: int
    var request: int
    var limit: int

    function Value(): Amount
      reads this
    {
      Amount(capacity, request, limit)
    }

    constructor (capacity: int)
      ensures Value() == Amount(capacity, 0, 0)
    {
      this.capacity, request, limit := capacity, 0, 0;
    }

    method Add(ou: AmountUsage)
      modifies this
      ensures Value() == old(Value()).Plus(old(ou.Value()))
    {
      capacity := capacity + ou.capacity;
      request := request + ou.request;
      limit := limit + ou.limit;
    }
  }

  class PodUsage {
    var capacity: int
    var count: int

    constructor (capacity: int, count: int)
      ensures this.capacity == capacity && this.count == count
    {
      this.capacity, this.count := capacity, count;
    }

    method Add(ou: PodUsage)
      modifies this
      ensures capacity == old(capacity) + old(ou.capacity) && count == old(count) + old(ou.count)
    {
      capacity := capacity + ou.capacity;
      count := count + ou.count;
    }
  }

  class NodeUsage {
    const memory: AmountUsage
    const cpu: AmountUsage
    const pod: PodUsage
    var count: int
    var readyCount: int
    var notReadyCount: int

    ghost predicate Valid() { memory != cpu }

    ghost function Parts(): set<object> { {this, memory, cpu, pod} }

    function Value(): Total
      reads this, memory, cpu, pod
    {
      Total(memory.Value(), cpu.Value(), pod.capacity, pod.count, count, readyCount, notReadyCount)
    }

    constructor (memoryCapacity: int, cpuCapacity: int, podCapacity: int, podCount: int, count: int, readyCount: int, notReadyCount: int)
      ensures Valid() && fresh(Parts())
      ensures Value() == Total(Amount(memoryCapacity, 0, 0), Amount(cpuCapacity, 0, 0), podCapacity, podCount, count, readyCount, notReadyCount)
    {
      memory := new AmountUsage(memoryCapacity);
      cpu := new AmountUsage(cpuCapacity);
      pod := new PodUsage(podCapacity, podCount);
      this.count, this.readyCount, this.notReadyCount := count, readyCount, notReadyCount;
    }

    method Add(ou: NodeUsage)
      requires Valid() && ou.Valid() && Parts() !! ou.Parts()
      modifies Parts()
      ensures Value() == old(Value()).Plus(old(ou.Value()))
    {
      memory.Add(ou.memory);
      cpu.Add(ou.cpu);
      pod.Add(ou.pod);
      count := count + ou.count;
      readyCount := readyCount + ou.readyCount;
      notReadyCount := notReadyCount + ou.notReadyCount;
    }
  }

  // --- what one node and all nodes come to ---

  /** getNodePods. */
  function NodePods(id: string, pods: seq<Pod>): seq<Pod> {
    if pods == [] then []
    else
      var rest := NodePods(id, pods[..|pods| - 1]);
      if pods[|pods| - 1].nodeId == id then rest + [pods[|pods| - 1]] else rest
  }

  function SumOf(pods: seq<Pod>, f: Pod -> int): int {
    if pods == [] then 0 else SumOf(pods[..|pods| - 1], f) + f(pods[|pods| - 1])
  }

  function MemReq(p: Pod): int { p.memoryRequests }
  function MemLim(p: Pod): int { p.memoryLimits }
  function CpuReq(p: Pod): int { p.cpuRequests }
  function CpuLim(p: Pod): int { p.cpuLimits }
  function One(p: Pod): int { 1 }

  function NodeTotal(n: Node, pods: seq<Pod>): Total {
    var on := NodePods(n.id, pods);
    Total(
      Amount(n.memoryCapacity, SumOf(on, MemReq), SumOf(on, MemLim)),
      Amount(n.cpuCapacity, SumOf(on, CpuReq), SumOf(on, CpuLim)),
      n.podCapacity, |on|, 1, if n.status == READY then 1 else 0, if n.status == READY then 0 else 1)
  }

  function Totals(nodes: seq<Node>, pods: seq<Pod>): Total {
    if nodes == [] then Zero else Totals(nodes[..|nodes| - 1], pods).Plus(NodeTotal(nodes[|nodes| - 1], pods))
  }

  method GetNodePods(id: string, pods: seq<Pod>) returns (on: seq<Pod>)
    ensures on == NodePods(id, pods)
  {
    on := [];
    for i := 0 to |pods|
      invariant on == NodePods(id, pods[..i])
    {
      assert pods[..i + 1][..i] == pods[..i];
      if pods[i].nodeId == id { on := on + [pods[i]]; }
    }
    assert pods[..|pods|] == pods;
  }

  /** fillUsage. */
  method FillUsage(pods: seq<Pod>, nu: NodeUsage)
    requires nu.Valid()
    modifies nu.memory, nu.cpu
    ensures nu.Value() == old(nu.Value()).Plus(
      Total(Amount(0, SumOf(pods, MemReq), SumOf(pods, MemLim)), Amount(0, SumOf(pods, CpuReq), SumOf(pods, CpuLim)), 0, 0, 0, 0, 0))
  {
    ghost var v := nu.Value();
    for i := 0 to |pods|
      invariant nu.memory.Value() == v.memory.Plus(Amount(0, SumOf(pods[..i], MemReq), SumOf(pods[..i], MemLim)))
      invariant nu.cpu.Value() == v.cpu.Plus(Amount(0, SumOf(pods[..i], CpuReq), SumOf(pods[..i], CpuLim)))
    {
      assert pods[..i + 1][..i] == pods[..i];
      nu.memory.request := nu.memory.request + pods[i].memoryRequests;
      nu.memory.limit := nu.memory.limit + pods[i].memoryLimits;
      nu.cpu.request := nu.cpu.request + pods[i].cpuRequests;
      nu.cpu.limit := nu.cpu.limit + pods[i].cpuLimits;
    }
    assert pods[..|pods|] == pods;
  }

  method UsageOf(n: Node, pods: seq<Pod>) returns (nu: NodeUsage)
    ensures nu.Valid() && fresh(nu.Parts()) && nu.Value() == NodeTotal(n, pods)
  {
    var on := GetNodePods(n.id, pods);
    nu := new NodeUsage(n.memoryCapacity, n.cpuCapacity, n.podCapacity, |on|, 1,
      if n.status == READY then 1 else 0, if n.status == READY then 0 else 1);
    FillUsage(on, nu);
  }

  /** The first loop of Usage: a record per node. */
  method EachUsage(nodes: seq<Node>, pods: seq<Pod>) returns (each: seq<NodeUsage>)
    ensures |each| == |nodes|
    ensures forall k :: 0 <= k < |each| ==> each[k].Valid() && each[k].Value() == NodeTotal(nodes[k], pods)
  {
    each := [];
    for i := 0 to |nodes|
      invariant |each| == i
      invariant forall k :: 0 <= k < i ==> each[k].Valid() && each[k].Value() == NodeTotal(nodes[k], pods)
    {
      var nu := UsageOf(nodes[i], pods);
      each := each + [nu];
    }
  }

  /** The second loop of Usage: the records added up. */
  method AddUp(each: seq<NodeUsage>, nodes: seq<Node>, pods: seq<Pod>) returns (total: NodeUsage)
    requires |each| == |nodes|
    requires forall k :: 0 <= k < |each| ==> each[k].Valid() && each[k].Value() == NodeTotal(nodes[k], pods)
    ensures total.Valid() && fresh(total.Parts()) && total.Value() == Totals(nodes, pods)
  {
    total := new NodeUsage(0, 0, 0, 0, 0, 0, 0);
    for i := 0 to |each|
      invariant total.Value() == Totals(nodes[..i], pods)
    {
      assert nodes[..i + 1][..i] == nodes[..i];
      assert each[i].Value() == old(each[i].Value());
      total.Add(each[i]);
    }
    assert nodes[..|nodes|] == nodes;
  }

  /** Usage. */
  method UsageTotal(nodes: seq<Node>, pods: seq<Pod>) returns (total: NodeUsage)
    ensures total.Valid() && fresh(total.Parts()) && total.Value() == Totals(nodes, pods)
  {
    var each := EachUsage(nodes, pods);
    total := AddUp(each, nodes, pods);
  }

  // --- every pod counted once per node of its id ---

  /** How many listed nodes have this id. */
  function Copies(nodes: seq<Node>, id: string): nat {
    if nodes == [] then 0 else Copies(nodes[..|nodes| - 1], id) + if nodes[|nodes| - 1].id == id then 1 else 0
  }

  /** Each pod's amount, times the number of listed nodes with its node id. */
  function Spread(nodes: seq<Node>, pods: seq<Pod>, f: Pod -> int): int {
    if pods == [] then 0
    else Spread(nodes, pods[..|pods| - 1], f) + Copies(nodes, pods[|pods| - 1].nodeId) * f(pods[|pods| - 1])
  }

  predicate HasNode(nodes: seq<Node>, id: string) { exists i :: 0 <= i < |nodes| && nodes[i].id == id }

  /** The pods whose node is listed. */
  function Listed(nodes: seq<Node>, pods: seq<Pod>): seq<Pod> {
    if pods == [] then []
    else
      var rest := Listed(nodes, pods[..|pods| - 1]);
      if HasNode(nodes, pods[|pods| - 1].nodeId) then rest + [pods[|pods| - 1]] else rest
  }

  lemma OneMore(c: int, x: int)
    ensures (c + 1) * x == c * x + x
  {}

  lemma {:induction false} SpreadSnoc(nodes: seq<Node>, pods: seq<Pod>, f: Pod -> int)
    requires nodes != []
    ensures Spread(nodes, pods, f) == Spread(nodes[..|nodes| - 1], pods, f) + SumOf(NodePods(nodes[|nodes| - 1].id, pods), f)
    decreases |pods|
  {
    if pods != [] {
      var n := |pods| - 1;
      SpreadSnoc(nodes, pods[..n], f);
      var last, fewer, on := nodes[|nodes| - 1], nodes[..|nodes| - 1], NodePods(nodes[|nodes| - 1].id, pods[..n]);
      assert (on + [pods[n]])[..|on|] == on;
      var c := Copies(fewer, pods[n].nodeId);
      if last.id == pods[n].nodeId {
        assert Copies(nodes, pods[n].nodeId) == c + 1;
        OneMore(c, f(pods[n]));
      }
    }
  }

  lemma {:induction false} CountIsSum(pods: seq<Pod>)
    ensures SumOf(pods, One) == |pods|
  {
    if pods != [] { CountIsSum(pods[..|pods| - 1]); }
  }

  lemma {:induction false} SpreadNone(pods: seq<Pod>, f: Pod -> int)
    ensures Spread([], pods, f) == 0
    decreases |pods|
  {
    if pods != [] { SpreadNone(pods[..|pods| - 1], f); }
  }

  function ReadyCount(nodes: seq<Node>): nat {
    if nodes == [] then 0 else ReadyCount(nodes[..|nodes| - 1]) + if nodes[|nodes| - 1].status == "Ready" then 1 else 0
  }

  function SumNodes(nodes: seq<Node>, f: Node -> int): int {
    if nodes == [] then 0 else SumNodes(nodes[..|nodes| - 1], f) + f(nodes[|nodes| - 1])
  }

  /** Capacities add up over the nodes. */
  lemma {:induction false} CapacitySums(nodes: seq<Node>, pods: seq<Pod>)
    ensures var t := Totals(nodes, pods);
      && t.memory.capacity == SumNodes(nodes, (n: Node) => n.memoryCapacity)
      && t.cpu.capacity == SumNodes(nodes, (n: Node) => n.cpuCapacity)
      && t.podCapacity == SumNodes(nodes, (n: Node) => n.podCapacity)
    decreases |nodes|
  {
    if nodes != [] { CapacitySums(nodes[..|nodes| - 1], pods); }
  }

  /** The totals conserve the pods: each is counted once for every listed node with its node id; and the
      node count splits into ready and not ready. */
  lemma {:induction false} Conservation(nodes: seq<Node>, pods: seq<Pod>)
    ensures var t := Totals(nodes, pods);
      && t.memory.request == Spread(nodes, pods, MemReq) && t.memory.limit == Spread(nodes, pods, MemLim)
      && t.cpu.request == Spread(nodes, pods, CpuReq) && t.cpu.limit == Spread(nodes, pods, CpuLim)
      && t.podCount == Spread(nodes, pods, One)
      && t.count == |nodes| == t.ready + t.notReady && t.ready == ReadyCount(nodes)
    decreases |nodes|
  {
    if nodes == [] {
      SpreadNone(pods, MemReq);
      SpreadNone(pods, MemLim);
      SpreadNone(pods, CpuReq);
      SpreadNone(pods, CpuLim);
      SpreadNone(pods, One);
    } else {
      Conservation(nodes[..|nodes| - 1], pods);
      SpreadSnoc(nodes, pods, MemReq);
      SpreadSnoc(nodes, pods, MemLim);
      SpreadSnoc(nodes, pods, CpuReq);
      SpreadSnoc(nodes, pods, CpuLim);
      SpreadSnoc(nodes, pods, One);
      CountIsSum(NodePods(nodes[|nodes| - 1].id, pods));
    }
  }

  predicate DistinctIds(nodes: seq<Node>) { forall i, j :: 0 <= i < j < |nodes| ==> nodes[i].id != nodes[j].id }

  lemma {:induction false} CopiesExact(nodes: seq<Node>, id: string)
    requires DistinctIds(nodes)
    ensures Copies(nodes, id) == if HasNode(nodes, id) then 1 else 0
  {
    if nodes != [] {
      var n := |nodes| - 1;
      CopiesExact(nodes[..n], id);
      assert forall i :: 0 <= i < n ==> nodes[..n][i] == nodes[i];
      if HasNode(nodes[..n], id) {
        var i :| 0 <= i < n && nodes[..n][i].id == id;
        assert nodes[i].id == id;
      }
    }
  }

  lemma {:induction false} SpreadOnce(nodes: seq<Node>, pods: seq<Pod>, f: Pod -> int)
    requires DistinctIds(nodes)
    ensures Spread(nodes, pods, f) == SumOf(Listed(nodes, pods), f)
    decreases |pods|
  {
    if pods != [] {
      var n := |pods| - 1;
      SpreadOnce(nodes, pods[..n], f);
      CopiesExact(nodes, pods[n].nodeId);
      var rest := Listed(nodes, pods[..n]);
      if HasNode(nodes, pods[n].nodeId) {
        assert Copies(nodes, pods[n].nodeId) * f(pods[n]) == f(pods[n]);
        assert (rest + [pods[n]])[..|rest|] == rest;
      } else {
        assert Copies(nodes, pods[n].nodeId) * f(pods[n]) == 0;
      }
    }
  }

  /** With distinct node ids the totals are the plain sums over the pods on listed nodes. */
  lemma EachPodOnce(nodes: seq<Node>, pods: seq<Pod>)
    requires DistinctIds(nodes)
    ensures var t, on := Totals(nodes, pods), Listed(nodes, pods);
      && t.memory.request == SumOf(on, MemReq) && t.memory.limit == SumOf(on, MemLim)
      && t.cpu.request == SumOf(on, CpuReq) && t.cpu.limit == SumOf(on, CpuLim)
      && t.podCount == |on|
  {
    Conservation(nodes, pods);
    SpreadOnce(nodes, pods, MemReq);
    SpreadOnce(nodes, pods, MemLim);
    SpreadOnce(nodes, pods, CpuReq);
    SpreadOnce(nodes, pods, CpuLim);
    SpreadOnce(nodes, pods, One);
    CountIsSum(Listed(nodes, pods));
  }
}
