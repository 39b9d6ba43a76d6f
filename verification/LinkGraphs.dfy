/**
 Collecting the link graph: a queue-based traversal of the gateway network, in which gateways may fail to respond
 (platform/api-server/api/controllers/link-graph-controller.js:12-58). The network does not change during a traversal.
 */
module LinkGraphs {
  import opened Vocabulary
  import A = Allocation

  type Id = string

  datatype Node = Node(id: Id, ip: Ip)

  /** What a gateway answers. */
  datatype Report = Report(neighbors: seq<Node>, devices: seq<DeviceId>, apps: seq<string>)

  /** The gateways that respond, by address. */
  type Network = map<Ip, Report>

  datatype GatewayData = GatewayData(id: Id, ip: Ip, devices: seq<DeviceId>, apps: seq<string>)

  /** Every gateway id that the network can bring up. */
  ghost predicate Covers(net: Network, self: Node, ids: set<Id>) {
    && self.id in ids
    && forall ip, k :: ip in net && 0 <= k < |net[ip].neighbors| ==> net[ip].neighbors[k].id in ids
  }

  lemma AllIds(net: Network, self: Node) returns (ids: set<Id>)
    ensures Covers(net, self, ids)
  {
    ids := {self.id} + set ip, k | ip in net && 0 <= k < |net[ip].neighbors| :: net[ip].neighbors[k].id;
  }

  predicate Responds(net: Network, n: Node) {
    n.ip in net
  }

  function Neighbors(net: Network, n: Node): seq<Node>
    requires Responds(net, n)
  {
    net[n.ip].neighbors
  }

  /** Responding gateway `n` lists `m`. */
  predicate Lists(net: Network, n: Node, m: Node) {
    Responds(net, n) && m in Neighbors(net, n)
  }

  // ---------------------------------------------------------------------------
  // Reachability through responding gateways

  ghost predicate IsPath(net: Network, self: Node, path: seq<Node>) {
    && |path| > 0 && path[0] == self
    && forall j, k :: 0 <= j < k < |path| && k == j + 1 ==> Lists(net, path[j], path[k])
  }

  ghost predicate Reachable(net: Network, self: Node, n: Node) {
    exists path :: IsPath(net, self, path) && path[|path| - 1] == n
  }

  lemma SelfReachable(net: Network, self: Node)
    ensures Reachable(net, self, self)
  {
    assert IsPath(net, self, [self]);
  }

  lemma ReachableStep(net: Network, self: Node, n: Node, m: Node)
    requires Reachable(net, self, n) && Lists(net, n, m)
    ensures Reachable(net, self, m)
  {
    var path :| IsPath(net, self, path) && path[|path| - 1] == n;
    assert IsPath(net, self, path + [m]);
  }

  /** A set of nodes that has `self` and is closed under listing has every reachable node. */
  lemma ClosedHasReachable(net: Network, self: Node, nodes: seq<Node>, n: Node)
    requires self in nodes && Reachable(net, self, n)
    requires forall a, b :: a in nodes && Lists(net, a, b) ==> b in nodes
    ensures n in nodes
  {
    var path :| IsPath(net, self, path) && path[|path| - 1] == n;
    for k := 0 to |path| - 1
      invariant path[k] in nodes
    {
      assert Lists(net, path[k], path[k + 1]);
    }
  }

  // ---------------------------------------------------------------------------
  // The result, in terms of the order in which gateways were contacted

  ghost predicate DistinctIds(nodes: seq<Node>) {
    forall i, j :: 0 <= i < j < |nodes| ==> nodes[i].id != nodes[j].id
  }

  /** The `data` object: one entry per gateway that responded, in contact order. */
  function DataOf(net: Network, order: seq<Node>): seq<GatewayData> {
    if order == [] then []
    else
      var front, n := DataOf(net, order[..|order| - 1]), order[|order| - 1];
      if Responds(net, n) then front + [GatewayData(n.id, n.ip, net[n.ip].devices, net[n.ip].apps)] else front
  }

  function Ids(nodes: seq<Node>): seq<Id> {
    seq(|nodes|, k requires 0 <= k < |nodes| => nodes[k].id)
  }

  /** `ids.filter(id => !removed.has(id))` */
  function Remaining(ids: seq<Id>, removed: set<Id>): seq<Id> {
    if ids == [] then []
    else
      var front, id := Remaining(ids[..|ids| - 1], removed), ids[|ids| - 1];
      if id in removed then front else front + [id]
  }

  /** The gateways contacted in vain after the k-th contact. */
  function FailedAfter(net: Network, order: seq<Node>, k: nat): set<Id> {
    set j | k < j < |order| && !Responds(net, order[j]) :: order[j].id
  }

  /**
   The `graph` object: for each gateway that responded, the neighbours that it reported, without those whose contact
   failed later on.
   */
  ghost predicate IsGraph(net: Network, order: seq<Node>, graph: map<Id, seq<Id>>) {
    && (forall id :: id in graph <==> exists k :: 0 <= k < |order| && order[k].id == id && Responds(net, order[k]))
    && (forall k :: 0 <= k < |order| && Responds(net, order[k]) ==>
          && order[k].id in graph
          && graph[order[k].id] == Remaining(Ids(Neighbors(net, order[k])), FailedAfter(net, order, k)))
  }

  /** None of the first n nodes lists a gateway of this id. */
  ghost predicate NotListedBefore(net: Network, nodes: seq<Node>, n: nat, id: Id)
    requires n <= |nodes|
  {
    forall i, x :: 0 <= i < n && Lists(net, nodes[i], x) ==> x.id != id
  }

  /** Node m was found at the earliest responding node that lists its id. */
  ghost predicate FoundFirst(net: Network, nodes: seq<Node>, parents: seq<nat>, m: nat)
    requires m < |nodes| == |parents|
  {
    parents[m] < m && Lists(net, nodes[parents[m]], nodes[m]) && NotListedBefore(net, nodes, parents[m], nodes[m].id)
  }

  /** Breadth-first discovery: nodes are found first, and come in the order of the nodes at which they were found. */
  ghost predicate Discovered(net: Network, nodes: seq<Node>, parents: seq<nat>) {
    && |parents| == |nodes|
    && (forall m :: 0 < m < |nodes| ==> FoundFirst(net, nodes, parents, m))
    && (forall a, b :: 0 < a < b < |nodes| ==> parents[a] <= parents[b])
  }

  lemma {:induction false} RemainingOnceMore(ids: seq<Id>, removed: set<Id>, id: Id)
    ensures Remaining(Remaining(ids, removed), {id}) == Remaining(ids, removed + {id})
  {
    if ids != [] {
      RemainingOnceMore(ids[..|ids| - 1], removed, id);
    }
  }

  lemma {:induction false} RemainingMembers(ids: seq<Id>, removed: set<Id>)
    ensures forall id :: id in Remaining(ids, removed) <==> id in ids && id !in removed
    ensures removed == {} ==> Remaining(ids, removed) == ids
  {
    if ids != [] {
      RemainingMembers(ids[..|ids| - 1], removed);
      assert ids == ids[..|ids| - 1] + [ids[|ids| - 1]];
    }
  }

  lemma FailedAfterSnoc(net: Network, order: seq<Node>, n: Node, k: nat)
    requires k < |order|
    ensures FailedAfter(net, order + [n], k) == FailedAfter(net, order, k) + (if Responds(net, n) then {} else {n.id})
  {
    var all := order + [n];
    assert all[|order|] == n;
    assert forall j :: 0 <= j < |order| ==> all[j] == order[j];
  }

  /** A gateway that responded gets a new entry with all its neighbours. */
  lemma GraphAfterResponse(net: Network, order: seq<Node>, n: Node, graph: map<Id, seq<Id>>)
    requires IsGraph(net, order, graph) && Responds(net, n) && DistinctIds(order + [n])
    ensures IsGraph(net, order + [n], graph[n.id := Ids(Neighbors(net, n))])
  {
    var all, graph' := order + [n], graph[n.id := Ids(Neighbors(net, n))];
    assert all[|order|] == n && forall j :: 0 <= j < |order| ==> all[j] == order[j];
    forall k | 0 <= k < |all| && Responds(net, all[k])
      ensures all[k].id in graph' && graph'[all[k].id] == Remaining(Ids(Neighbors(net, all[k])), FailedAfter(net, all, k))
    {
      if k < |order| {
        FailedAfterSnoc(net, order, n, k);
        assert FailedAfter(net, all, k) == FailedAfter(net, order, k);
        assert all[k].id != all[|order|].id;
      } else {
        assert FailedAfter(net, all, k) == {};
        RemainingMembers(Ids(Neighbors(net, n)), {});
      }
    }
  }

  /** A gateway that failed is filtered out of every entry built so far. */
  lemma GraphAfterFailure(net: Network, order: seq<Node>, n: Node, graph: map<Id, seq<Id>>, graph': map<Id, seq<Id>>)
    requires IsGraph(net, order, graph) && !Responds(net, n)
    requires graph'.Keys == graph.Keys && forall id :: id in graph ==> graph'[id] == Remaining(graph[id], {n.id})
    ensures IsGraph(net, order + [n], graph')
  {
    var all := order + [n];
    assert all[|order|] == n && forall j :: 0 <= j < |order| ==> all[j] == order[j];
    forall k | 0 <= k < |all| && Responds(net, all[k])
      ensures all[k].id in graph' && graph'[all[k].id] == Remaining(Ids(Neighbors(net, all[k])), FailedAfter(net, all, k))
    {
      FailedAfterSnoc(net, order, n, k);
      RemainingOnceMore(Ids(Neighbors(net, all[k])), FailedAfter(net, order, k), n.id);
    }
  }

  // ---------------------------------------------------------------------------
  // The traversal

  function IdsOf(nodes: seq<Node>): set<Id> {
    if nodes == [] then {} else IdsOf(nodes[..|nodes| - 1]) + {nodes[|nodes| - 1].id}
  }

  lemma {:induction false} IdsOfMembers(nodes: seq<Node>, id: Id)
    ensures id in IdsOf(nodes) <==> exists k :: 0 <= k < |nodes| && nodes[k].id == id
  {
    if nodes != [] {
      IdsOfMembers(nodes[..|nodes| - 1], id);
    }
  }

  /** The nodes seen so far, contacted or queued. */
  ghost predicate Seen(self: Node, ids: set<Id>, nodes: seq<Node>, visited: set<Id>) {
    && |nodes| > 0 && nodes[0] == self && DistinctIds(nodes)
    && visited == IdsOf(nodes) && visited <= ids
  }

  ghost predicate DiscoveredBy(net: Network, nodes: seq<Node>, c: nat, parents: seq<nat>) {
    && Discovered(net, nodes, parents)
    && (forall m {:trigger parents[m]} :: 0 < m < |nodes| ==> parents[m] < c)
  }

  /** The neighbours of the first `c` nodes have been visited. */
  ghost predicate Expanded(net: Network, nodes: seq<Node>, c: nat, visited: set<Id>)
    requires c <= |nodes|
  {
    forall k, m :: 0 <= k < c && Lists(net, nodes[k], m) ==> m.id in visited
  }

  lemma SeenOneMore(self: Node, ids: set<Id>, nodes: seq<Node>, visited: set<Id>, m: Node)
    requires Seen(self, ids, nodes, visited) && m.id in ids && m.id !in visited
    ensures Seen(self, ids, nodes + [m], visited + {m.id})
  {
    var nodes' := nodes + [m];
    assert nodes'[..|nodes|] == nodes;
    forall k | 0 <= k < |nodes|
      ensures nodes[k].id != m.id
    {
      IdsOfMembers(nodes, nodes[k].id);
    }
  }

  lemma StillFoundFirst(net: Network, nodes: seq<Node>, parents: seq<nat>, m: nat, n: Node, c: nat)
    requires m < |nodes| == |parents| && FoundFirst(net, nodes, parents, m)
    ensures FoundFirst(net, nodes + [n], parents + [c], m)
  {
    assert forall i :: 0 <= i <= m ==> (nodes + [n])[i] == nodes[i] && (parents + [c])[i] == parents[i];
  }

  lemma NowFoundFirst(net: Network, nodes: seq<Node>, c: nat, parents: seq<nat>, visited: set<Id>, m: Node)
    requires c < |nodes| == |parents| && Expanded(net, nodes, c, visited) && Lists(net, nodes[c], m) && m.id !in visited
    ensures FoundFirst(net, nodes + [m], parents + [c], |nodes|)
  {
    assert forall i :: 0 <= i <= c ==> (nodes + [m])[i] == nodes[i];
  }

  lemma DiscoveredOneMore(net: Network, nodes: seq<Node>, c: nat, parents: seq<nat>, visited: set<Id>, m: Node)
    requires c < |nodes| && DiscoveredBy(net, nodes, c + 1, parents) && Expanded(net, nodes, c, visited)
    requires Lists(net, nodes[c], m) && m.id !in visited
    ensures DiscoveredBy(net, nodes + [m], c + 1, parents + [c])
  {
    NowFoundFirst(net, nodes, c, parents, visited, m);
    forall k | 0 < k < |nodes|
      ensures FoundFirst(net, nodes + [m], parents + [c], k)
    {
      StillFoundFirst(net, nodes, parents, k, m, c);
    }
  }

  /** Node c has just been contacted, `nodes[c + 1..]` is queued, and the first i of its neighbours have been looked at. */
  ghost predicate Visiting(net: Network, self: Node, ids: set<Id>, c: nat, i: nat,
                           nodes: seq<Node>, parents: seq<nat>, queue: seq<Node>, visited: set<Id>)
  {
    && c < |nodes| && queue == nodes[c + 1..]
    && Responds(net, nodes[c]) && i <= |Neighbors(net, nodes[c])|
    && Seen(self, ids, nodes, visited)
    && DiscoveredBy(net, nodes, c + 1, parents) && Expanded(net, nodes, c, visited)
    && forall k :: 0 <= k < i ==> Neighbors(net, nodes[c])[k].id in visited
  }

  /** A neighbour that has not been visited is queued. */
  lemma VisitNew(net: Network, self: Node, ids: set<Id>, c: nat, i: nat,
                 nodes: seq<Node>, parents: seq<nat>, queue: seq<Node>, visited: set<Id>, m: Node)
    requires Covers(net, self, ids) && Visiting(net, self, ids, c, i, nodes, parents, queue, visited)
    requires i < |Neighbors(net, nodes[c])| && m == Neighbors(net, nodes[c])[i] && m.id !in visited
    ensures Visiting(net, self, ids, c, i + 1, nodes + [m], parents + [c], queue + [m], visited + {m.id})
    ensures |ids - (visited + {m.id})| + |queue + [m]| == |ids - visited| + |queue|
  {
    assert Lists(net, nodes[c], m) && m.id in ids;
    SeenOneMore(self, ids, nodes, visited, m);
    DiscoveredOneMore(net, nodes, c, parents, visited, m);
    assert ids - (visited + {m.id}) == (ids - visited) - {m.id};
  }

  lemma PassSeen(net: Network, self: Node, ids: set<Id>, c: nat, i: nat,
                 nodes: seq<Node>, parents: seq<nat>, queue: seq<Node>, visited: set<Id>)
    requires Visiting(net, self, ids, c, i, nodes, parents, queue, visited)
    requires i < |Neighbors(net, nodes[c])| && Neighbors(net, nodes[c])[i].id in visited
    ensures Visiting(net, self, ids, c, i + 1, nodes, parents, queue, visited)
  {
  }

  /** The loop over the neighbours of the node that responded last. */
  method VisitNeighbors(net: Network, self: Node, ghost ids: set<Id>, neighbors: seq<Node>,
                        ghost c: nat, ghost order: seq<Node>, ghost parents: seq<nat>, queue: seq<Node>, visited: set<Id>)
      returns (queue': seq<Node>, visited': set<Id>, ghost order': seq<Node>, ghost parents': seq<nat>)
    requires Covers(net, self, ids)
    requires Visiting(net, self, ids, c, 0, order, parents, queue, visited) && neighbors == Neighbors(net, order[c])
    ensures order <= order' && Visiting(net, self, ids, c, |neighbors|, order', parents', queue', visited')
    ensures |ids - visited'| + |queue'| == |ids - visited| + |queue|
  {
    queue', visited', order', parents' := queue, visited, order, parents;
    for i := 0 to |neighbors|
      invariant order <= order' && Visiting(net, self, ids, c, i, order', parents', queue', visited')
      invariant |ids - visited'| + |queue'| == |ids - visited| + |queue|
    {
      var neighbor := neighbors[i];
      if neighbor.id !in visited' {
        VisitNew(net, self, ids, c, i, order', parents', queue', visited', neighbor);
        visited' := visited' + {neighbor.id};
        queue' := queue' + [neighbor];
        order', parents' := order' + [neighbor], parents' + [c];
      } else {
        PassSeen(net, self, ids, c, i, order', parents', queue', visited');
      }
    }
  }

  lemma AllVisited(net: Network, self: Node, ids: set<Id>, c: nat,
                   nodes: seq<Node>, parents: seq<nat>, queue: seq<Node>, visited: set<Id>)
    requires c < |nodes| && Responds(net, nodes[c])
    requires Visiting(net, self, ids, c, |Neighbors(net, nodes[c])|, nodes, parents, queue, visited)
    ensures Expanded(net, nodes, c + 1, visited)
  {
  }

  lemma {:induction false} DiscoveredReachable(net: Network, self: Node, nodes: seq<Node>, parents: seq<nat>, m: nat)
    requires m < |nodes| && nodes[0] == self && Discovered(net, nodes, parents)
    ensures Reachable(net, self, nodes[m])
  {
    if m == 0 {
      SelfReachable(net, self);
    } else {
      assert FoundFirst(net, nodes, parents, m);
      DiscoveredReachable(net, self, nodes, parents, parents[m]);
      ReachableStep(net, self, nodes[parents[m]], nodes[m]);
    }
  }

  /** No reachable gateway is reported under an id with two addresses. */
  ghost predicate AddressesAgree(net: Network, self: Node) {
    forall a, b :: Reachable(net, self, a) && Reachable(net, self, b) && a.id == b.id ==> a == b
  }

  /** Whatever a contacted gateway lists has been contacted, under the address at which its id came up first. */
  ghost predicate ClosedByIds(net: Network, nodes: seq<Node>) {
    forall n, m :: n in nodes && Lists(net, n, m) ==> exists k :: 0 <= k < |nodes| && nodes[k].id == m.id
  }

  lemma ExpandedIsClosed(net: Network, nodes: seq<Node>, visited: set<Id>)
    requires visited == IdsOf(nodes) && Expanded(net, nodes, |nodes|, visited)
    ensures ClosedByIds(net, nodes)
  {
    forall n, m | n in nodes && Lists(net, n, m)
      ensures exists k :: 0 <= k < |nodes| && nodes[k].id == m.id
    {
      var j :| 0 <= j < |nodes| && nodes[j] == n;
      assert Lists(net, nodes[j], m);
      IdsOfMembers(nodes, m.id);
    }
  }

  lemma ContactedAreReachable(net: Network, self: Node, nodes: seq<Node>, parents: seq<nat>)
    requires nodes != [] && nodes[0] == self && Discovered(net, nodes, parents)
    ensures AreReachable(net, self, nodes)
  {
    forall n | n in nodes
      ensures Reachable(net, self, n)
    {
      var m :| 0 <= m < |nodes| && nodes[m] == n;
      DiscoveredReachable(net, self, nodes, parents, m);
    }
  }

  ghost predicate AreReachable(net: Network, self: Node, nodes: seq<Node>) {
    forall n :: n in nodes ==> Reachable(net, self, n)
  }

  ghost predicate AreTheReachable(net: Network, self: Node, nodes: seq<Node>) {
    forall n :: n in nodes <==> Reachable(net, self, n)
  }

  /** Exactly the reachable gateways are contacted iff no reachable gateway id comes with two addresses. */
  lemma ContactsExactlyReachable(net: Network, self: Node, nodes: seq<Node>)
    requires self in nodes && DistinctIds(nodes) && ClosedByIds(net, nodes)
    requires AreReachable(net, self, nodes)
    ensures AreTheReachable(net, self, nodes) <==> AddressesAgree(net, self)
  {
    if AddressesAgree(net, self) {
      forall a, b | a in nodes && Lists(net, a, b)
        ensures b in nodes
      {
        ReachableStep(net, self, a, b);
        var k :| 0 <= k < |nodes| && nodes[k].id == b.id;
        assert nodes[k] in nodes;
      }
      forall n | Reachable(net, self, n)
        ensures n in nodes
      {
        ClosedHasReachable(net, self, nodes, n);
      }
    }
  }

  /** What the contacts so far have produced. */
  ghost predicate Collected(net: Network, contacted: seq<Node>, data: seq<GatewayData>, graph: map<Id, seq<Id>>) {
    data == DataOf(net, contacted) && IsGraph(net, contacted, graph)
  }

  lemma CollectedResponse(net: Network, contacted: seq<Node>, n: Node, data: seq<GatewayData>, graph: map<Id, seq<Id>>)
    requires Collected(net, contacted, data, graph) && DistinctIds(contacted + [n]) && Responds(net, n)
    ensures var r := net[n.ip];
      Collected(net, contacted + [n], data + [GatewayData(n.id, n.ip, r.devices, r.apps)], graph[n.id := Ids(r.neighbors)])
  {
    assert (contacted + [n])[..|contacted|] == contacted;
    GraphAfterResponse(net, contacted, n, graph);
  }

  lemma CollectedFailure(net: Network, contacted: seq<Node>, n: Node, data: seq<GatewayData>,
                         graph: map<Id, seq<Id>>, graph': map<Id, seq<Id>>)
    requires Collected(net, contacted, data, graph) && !Responds(net, n)
    requires graph'.Keys == graph.Keys && forall id :: id in graph ==> graph'[id] == Remaining(graph[id], {n.id})
    ensures Collected(net, contacted + [n], data, graph')
  {
    assert (contacted + [n])[..|contacted|] == contacted;
    GraphAfterFailure(net, contacted, n, graph, graph');
  }

  /** The loop invariant: c nodes contacted and expanded, the others queued. */
  ghost predicate Between(net: Network, self: Node, ids: set<Id>, c: nat,
                          order: seq<Node>, parents: seq<nat>, queue: seq<Node>, visited: set<Id>)
  {
    && c <= |order| && queue == order[c..]
    && Seen(self, ids, order, visited)
    && DiscoveredBy(net, order, c, parents) && Expanded(net, order, c, visited)
  }

  lemma StartVisiting(net: Network, self: Node, ids: set<Id>, c: nat,
                      order: seq<Node>, parents: seq<nat>, queue: seq<Node>, visited: set<Id>)
    requires Between(net, self, ids, c, order, parents, queue, visited) && queue != [] && Responds(net, queue[0])
    ensures Visiting(net, self, ids, c, 0, order, parents, queue[1..], visited)
  {
  }

  lemma DoneVisiting(net: Network, self: Node, ids: set<Id>, c: nat,
                     order: seq<Node>, parents: seq<nat>, queue: seq<Node>, visited: set<Id>)
    requires c < |order| && Responds(net, order[c])
    requires Visiting(net, self, ids, c, |Neighbors(net, order[c])|, order, parents, queue, visited)
    ensures Between(net, self, ids, c + 1, order, parents, queue, visited)
  {
    AllVisited(net, self, ids, c, order, parents, queue, visited);
  }

  lemma SkipFailed(net: Network, self: Node, ids: set<Id>, c: nat,
                   order: seq<Node>, parents: seq<nat>, queue: seq<Node>, visited: set<Id>)
    requires Between(net, self, ids, c, order, parents, queue, visited) && queue != [] && !Responds(net, queue[0])
    ensures Between(net, self, ids, c + 1, order, parents, queue[1..], visited)
  {
  }

  /** The head of the queue is the next of the order, and nodes queued since come after those that waited. */
  lemma OneMoreContacted(contacted: seq<Node>, queue: seq<Node>, order: seq<Node>, queue': seq<Node>, order': seq<Node>)
    requires queue != [] && order == contacted + queue && order <= order' && queue' == order'[|contacted| + 1..]
    ensures order' == (contacted + [queue[0]]) + queue'
  {
    assert order'[..|contacted| + 1] == contacted + [queue[0]];
  }

  lemma NextIsNew(contacted: seq<Node>, queue: seq<Node>)
    requires queue != [] && DistinctIds(contacted + queue)
    ensures DistinctIds(contacted + [queue[0]])
  {
    assert forall k :: 0 <= k <= |contacted| ==> (contacted + [queue[0]])[k] == (contacted + queue)[k];
  }

  /** What the answer of `node`, or the lack of one, does to the result. */
  method Record(net: Network, node: Node, data: seq<GatewayData>, graph: map<Id, seq<Id>>, ghost contacted: seq<Node>)
      returns (data': seq<GatewayData>, graph': map<Id, seq<Id>>)
    requires Collected(net, contacted, data, graph) && DistinctIds(contacted + [node])
    ensures Collected(net, contacted + [node], data', graph')
  {
    if node.ip in net {
      var report := net[node.ip];
      CollectedResponse(net, contacted, node, data, graph);
      data' := data + [GatewayData(node.id, node.ip, report.devices, report.apps)];
      graph' := graph[node.id := Ids(report.neighbors)];
    } else {
      data' := data;
      graph' := RemoveFromAll(graph, node.id);
      CollectedFailure(net, contacted, node, data, graph, graph');
    }
  }

  /** The head of the queue has been contacted: if it has responded its neighbours are queued. */
  method Dequeue(net: Network, self: Node, ghost ids: set<Id>, ghost c: nat, ghost order: seq<Node>, ghost parents: seq<nat>,
                 queue: seq<Node>, visited: set<Id>)
      returns (queue': seq<Node>, visited': set<Id>, ghost order': seq<Node>, ghost parents': seq<nat>)
    requires Covers(net, self, ids) && Between(net, self, ids, c, order, parents, queue, visited) && queue != []
    ensures Between(net, self, ids, c + 1, order', parents', queue', visited') && order <= order'
    ensures |ids - visited'| + |queue'| < |ids - visited| + |queue|
  {
    var node := queue[0];
    if node.ip in net {
      StartVisiting(net, self, ids, c, order, parents, queue, visited);
      queue', visited', order', parents' :=
        VisitNeighbors(net, self, ids, net[node.ip].neighbors, c, order, parents, queue[1..], visited);
      DoneVisiting(net, self, ids, c, order', parents', queue', visited');
    } else {
      queue', visited', order', parents' := queue[1..], visited, order, parents;
      SkipFailed(net, self, ids, c, order, parents, queue, visited);
    }
  }

  /** The queue loop: every node of the order has been contacted and expanded. */
  method Traverse(net: Network, self: Node)
      returns (data: seq<GatewayData>, graph: map<Id, seq<Id>>, contacted: seq<Node>, ghost parents: seq<nat>, visited: set<Id>)
    ensures Collected(net, contacted, data, graph) && Discovered(net, contacted, parents)
    ensures contacted != [] && contacted[0] == self && DistinctIds(contacted)
    ensures visited == IdsOf(contacted) && Expanded(net, contacted, |contacted|, visited)
  {
    var queue := [self];
    data, graph, contacted, visited := [], map[], [], {self.id};
    ghost var ids := AllIds(net, self);
    ghost var order := [self];
    parents := [0];
    while queue != []
      invariant Between(net, self, ids, |contacted|, order, parents, queue, visited) && order == contacted + queue
      invariant Collected(net, contacted, data, graph)
      decreases |ids - visited| + |queue|
    {
      var node := queue[0];
      NextIsNew(contacted, queue);
      data, graph := Record(net, node, data, graph, contacted);
      ghost var before, waiting := order, queue;
      queue, visited, order, parents := Dequeue(net, self, ids, |contacted|, order, parents, queue, visited);
      OneMoreContacted(contacted, waiting, before, queue, order);
      contacted := contacted + [node];
    }
    assert contacted == order;
  }

  /** `contacted` lists the requests for a gateway's neighbours, in the order in which they are made. */
  method GetLinkGraphData(net: Network, self: Node)
      returns (data: seq<GatewayData>, graph: map<Id, seq<Id>>, contacted: seq<Node>)
    ensures data == DataOf(net, contacted) && IsGraph(net, contacted, graph)
    ensures contacted != [] && contacted[0] == self && DistinctIds(contacted)
    ensures ClosedByIds(net, contacted) && AreReachable(net, self, contacted)
    ensures AreTheReachable(net, self, contacted) <==> AddressesAgree(net, self)
    ensures exists parents :: Discovered(net, contacted, parents)
  {
    ghost var parents;
    var visited;
    data, graph, contacted, parents, visited := Traverse(net, self);
    ExpandedIsClosed(net, contacted, visited);
    ContactedAreReachable(net, self, contacted, parents);
    ContactsExactlyReachable(net, self, contacted);
  }

  /** The loop over all graph entries that filters out a gateway which cannot be reached. */
  method RemoveFromAll(graph: map<Id, seq<Id>>, id: Id) returns (result: map<Id, seq<Id>>)
    ensures result.Keys == graph.Keys && forall node :: node in graph ==> result[node] == Remaining(graph[node], {id})
  {
    result := graph;
    var todo := graph.Keys;
    while todo != {}
      invariant todo <= graph.Keys == result.Keys
      invariant forall node :: node in graph ==>
                  result[node] == if node in todo then graph[node] else Remaining(graph[node], {id})
    {
      var node :| node in todo;
      todo := todo - {node};
      result := result[node := Remaining(result[node], {id})];
    }
  }

  // ---------------------------------------------------------------------------
  // What the link graph contains

  /** A result of the traversal of a network in which addresses agree, by the contract of GetLinkGraphData. */
  ghost predicate IsLinkGraph(net: Network, self: Node, order: seq<Node>, parents: seq<nat>, graph: map<Id, seq<Id>>) {
    && order != [] && order[0] == self && IsGraph(net, order, graph) && DistinctIds(order) && Discovered(net, order, parents)
    && AreTheReachable(net, self, order)
  }

  ghost predicate HasEntry(data: seq<GatewayData>, n: Node, r: Report) {
    exists k :: 0 <= k < |data| && data[k] == GatewayData(n.id, n.ip, r.devices, r.apps)
  }

  lemma {:induction false} DataOfMembers(net: Network, order: seq<Node>, n: Node, r: Report)
    ensures HasEntry(DataOf(net, order), n, r) <==>
            n in order && Responds(net, n) && net[n.ip].devices == r.devices && net[n.ip].apps == r.apps
  {
    if order != [] {
      var front, last := order[..|order| - 1], order[|order| - 1];
      DataOfMembers(net, front, n, r);
      assert order == front + [last];
      var data, before := DataOf(net, order), DataOf(net, front);
      assert Responds(net, last) ==> data[|before|] == GatewayData(last.id, last.ip, net[last.ip].devices, net[last.ip].apps);
      assert forall k :: 0 <= k < |before| ==> data[k] == before[k];
      assert HasEntry(data, n, r) <==>
             HasEntry(before, n, r) || (Responds(net, last) && data[|before|] == GatewayData(n.id, n.ip, r.devices, r.apps));
    }
  }

  /**
   `data` and `graph` have an entry for a gateway exactly when it responds and is reachable from this gateway through
   gateways that respond; the entry in `data` is what it reported.
   */
  lemma EntriesAreReachableResponders(net: Network, self: Node, order: seq<Node>, parents: seq<nat>, graph: map<Id, seq<Id>>)
    requires IsLinkGraph(net, self, order, parents, graph)
    ensures forall n, r :: HasEntry(DataOf(net, order), n, r) <==>
              Reachable(net, self, n) && Responds(net, n) && net[n.ip].devices == r.devices && net[n.ip].apps == r.apps
    ensures forall id :: id in graph <==> exists n: Node :: n.id == id && Reachable(net, self, n) && Responds(net, n)
  {
    forall n, r
      ensures HasEntry(DataOf(net, order), n, r) <==>
                Reachable(net, self, n) && Responds(net, n) && net[n.ip].devices == r.devices && net[n.ip].apps == r.apps
    {
      DataOfMembers(net, order, n, r);
      assert n in order <==> Reachable(net, self, n);
    }
    forall id
      ensures id in graph <==> exists n: Node :: n.id == id && Reachable(net, self, n) && Responds(net, n)
    {
      if id in graph {
        var k :| 0 <= k < |order| && order[k].id == id && Responds(net, order[k]);
        assert order[k] in order;
      }
      if n: Node :| n.id == id && Reachable(net, self, n) && Responds(net, n) {
        assert n in order;
      }
    }
  }

  /** Every neighbour in the graph is itself a node of the graph. */
  ghost predicate EdgeClosed(graph: map<Id, seq<Id>>) {
    forall id, m :: id in graph && m in graph[id] ==> m in graph
  }

  lemma IdsMembers(nodes: seq<Node>, id: Id)
    ensures id in Ids(nodes) <==> exists k :: 0 <= k < |nodes| && nodes[k].id == id
  {
    if id in Ids(nodes) {
      var k :| 0 <= k < |Ids(nodes)| && Ids(nodes)[k] == id;
    }
    if k :| 0 <= k < |nodes| && nodes[k].id == id {
      assert Ids(nodes)[k] == id;
    }
  }

  /** An edge survives iff its end responds or was contacted, in vain, before its start was processed. */
  lemma EdgeSurvives(net: Network, order: seq<Node>, graph: map<Id, seq<Id>>, i: nat, j: nat)
    requires IsGraph(net, order, graph) && DistinctIds(order)
    requires i < |order| && j < |order| && Responds(net, order[i]) && order[j].id in Ids(Neighbors(net, order[i]))
    ensures order[i].id in graph
    ensures order[j].id in graph[order[i].id] <==> Responds(net, order[j]) || j < i
  {
    RemainingMembers(Ids(Neighbors(net, order[i])), FailedAfter(net, order, i));
    assert order[j].id in FailedAfter(net, order, i) <==> i < j && !Responds(net, order[j]);
  }

  /** A dangling edge leads to a gateway that was contacted, in vain, before the edge's start. */
  lemma DanglingEdge(net: Network, self: Node, order: seq<Node>, parents: seq<nat>, graph: map<Id, seq<Id>>, i: nat, m: Id)
      returns (j: nat)
    requires IsLinkGraph(net, self, order, parents, graph) && i < |order| && Responds(net, order[i])
    requires m in graph[order[i].id] && m !in graph
    ensures j < i && order[j].id == m && !Responds(net, order[j]) && m in Ids(Neighbors(net, order[i]))
  {
    RemainingMembers(Ids(Neighbors(net, order[i])), FailedAfter(net, order, i));
    IdsMembers(Neighbors(net, order[i]), m);
    var k :| 0 <= k < |Neighbors(net, order[i])| && Neighbors(net, order[i])[k].id == m;
    var n := Neighbors(net, order[i])[k];
    assert order[i] in order && Lists(net, order[i], n);
    ReachableStep(net, self, order[i], n);
    assert n in order;
    j :| 0 <= j < |order| && order[j] == n;
    EdgeSurvives(net, order, graph, i, j);
  }

  /**
   The graph has dangling edges exactly when some gateway that responds lists a gateway that was contacted earlier and
   did not respond: the clean-up reaches only entries that were there at the time.
   */
  lemma EdgeClosedExactlyWhen(net: Network, self: Node, order: seq<Node>, parents: seq<nat>, graph: map<Id, seq<Id>>)
    requires IsLinkGraph(net, self, order, parents, graph)
    ensures EdgeClosed(graph) <==>
            forall i, j :: 0 <= j < i < |order| && Responds(net, order[i]) && !Responds(net, order[j]) ==>
              order[j].id !in Ids(Neighbors(net, order[i]))
  {
    forall i, j | 0 <= j < i < |order| && Responds(net, order[i]) && !Responds(net, order[j])
                  && order[j].id in Ids(Neighbors(net, order[i]))
      ensures !EdgeClosed(graph)
    {
      EdgeSurvives(net, order, graph, i, j);
      assert order[j].id !in graph;
    }
    if id, m :| id in graph && m in graph[id] && m !in graph {
      var i :| 0 <= i < |order| && order[i].id == id && Responds(net, order[i]);
      var j := DanglingEdge(net, self, order, parents, graph, i, m);
    }
  }

  /** A network in which f fails, and b, which is contacted after f, lists it. */
  const SELF := Node("self", "1")
  const FAILING := Node("f", "2")
  const LATER := Node("b", "3")
  const SMALL_NETWORK: Network := map["1" := Report([FAILING, LATER], [], []), "3" := Report([FAILING], [], [])]

  lemma SmallNetworkReachable(n: Node)
    ensures n in [SELF, FAILING, LATER] <==> Reachable(SMALL_NETWORK, SELF, n)
  {
    SelfReachable(SMALL_NETWORK, SELF);
    assert Lists(SMALL_NETWORK, SELF, FAILING) && Lists(SMALL_NETWORK, SELF, LATER);
    ReachableStep(SMALL_NETWORK, SELF, SELF, FAILING);
    ReachableStep(SMALL_NETWORK, SELF, SELF, LATER);
    if Reachable(SMALL_NETWORK, SELF, n) {
      ClosedHasReachable(SMALL_NETWORK, SELF, [SELF, FAILING, LATER], n);
    }
  }

  lemma SmallNetworkFailures()
    ensures FailedAfter(SMALL_NETWORK, [SELF, FAILING, LATER], 0) == {"f"}
    ensures FailedAfter(SMALL_NETWORK, [SELF, FAILING, LATER], 2) == {}
  {
    assert [SELF, FAILING, LATER][1] == FAILING;
  }

  lemma RemainingOne(id: Id, removed: set<Id>)
    ensures Remaining([id], removed) == if id in removed then [] else [id]
  {
    assert [id][..0] == [];
  }

  lemma RemainingTwo(first: Id, second: Id, removed: set<Id>)
    ensures Remaining([first, second], removed) == Remaining([first], removed) + if second in removed then [] else [second]
  {
    assert [first, second][..1] == [first];
  }

  lemma SmallNetworkEntries()
    ensures Remaining(Ids([FAILING, LATER]), {"f"}) == ["b"] && Remaining(Ids([FAILING]), {}) == ["f"]
  {
    assert Ids([FAILING, LATER]) == ["f", "b"] && Ids([FAILING]) == ["f"];
    RemainingOne("f", {"f"});
    RemainingOne("f", {});
    RemainingTwo("f", "b", {"f"});
  }

  lemma SmallNetworkGraph()
    ensures IsGraph(SMALL_NETWORK, [SELF, FAILING, LATER], SMALL_GRAPH)
  {
    var order := [SELF, FAILING, LATER];
    SmallNetworkFailures();
    SmallNetworkEntries();
    assert order[0].id == "self" && order[2].id == "b";
  }

  lemma SmallNetworkDiscovery()
    ensures Discovered(SMALL_NETWORK, [SELF, FAILING, LATER], [0, 0, 0])
  {
    assert Neighbors(SMALL_NETWORK, SELF) == [FAILING, LATER];
    assert [FAILING, LATER][0] == FAILING && [FAILING, LATER][1] == LATER;
  }

  const SMALL_GRAPH: map<Id, seq<Id>> := map["self" := ["b"], "b" := ["f"]]

  lemma SmallNetworkTraversal()
    ensures IsLinkGraph(SMALL_NETWORK, SELF, [SELF, FAILING, LATER], [0, 0, 0], SMALL_GRAPH)
  {
    SmallNetworkGraph();
    SmallNetworkDiscovery();
    forall n
      ensures n in [SELF, FAILING, LATER] <==> Reachable(SMALL_NETWORK, SELF, n)
    {
      SmallNetworkReachable(n);
    }
  }

  /** The graph of that network is not edge-closed. */
  lemma DanglingEdgesHappen()
    ensures exists order, parents :: IsLinkGraph(SMALL_NETWORK, SELF, order, parents, SMALL_GRAPH)
    ensures !EdgeClosed(SMALL_GRAPH)
  {
    SmallNetworkTraversal();
    assert "f" in SMALL_GRAPH["b"] && "f" !in SMALL_GRAPH;
  }

  // ---------------------------------------------------------------------------
  // Streams are placed on what was reached

  /** The link graph as the allocation reads it. */
  function HostDataOf(data: seq<GatewayData>): seq<A.HostData> {
    seq(|data|, k requires 0 <= k < |data| => A.HostData(data[k].ip, data[k].devices))
  }

  lemma HostsAreEntries(data: seq<GatewayData>, ip: Ip, d: DeviceId)
    ensures A.Hosts(HostDataOf(data), ip, d) <==> exists id, r :: HasEntry(data, Node(id, ip), r) && d in r.devices
  {
    var hosts := HostDataOf(data);
    if k :| 0 <= k < |hosts| && hosts[k].ip == ip && d in hosts[k].devices {
      var r := Report([], data[k].devices, data[k].apps);
      assert HasEntry(data, Node(data[k].id, ip), r);
    }
    if id, r :| HasEntry(data, Node(id, ip), r) && d in r.devices {
      var k :| 0 <= k < |data| && data[k] == GatewayData(id, ip, r.devices, r.apps);
      assert hosts[k].ip == ip && hosts[k].devices == r.devices;
    }
  }

  lemma HostsAreReachableResponders(net: Network, self: Node, order: seq<Node>, parents: seq<nat>, graph: map<Id, seq<Id>>,
                                    ip: Ip, d: DeviceId)
    requires IsLinkGraph(net, self, order, parents, graph)
    ensures A.Hosts(HostDataOf(DataOf(net, order)), ip, d) <==>
            exists id :: Reachable(net, self, Node(id, ip)) && ip in net && d in net[ip].devices
  {
    EntriesAreReachableResponders(net, self, order, parents, graph);
    var data, hosts := DataOf(net, order), HostDataOf(DataOf(net, order));
    HostsAreEntries(data, ip, d);
    if id, r :| HasEntry(data, Node(id, ip), r) && d in r.devices {
      assert Reachable(net, self, Node(id, ip));
    }
    if id :| Reachable(net, self, Node(id, ip)) && ip in net && d in net[ip].devices {
      assert HasEntry(data, Node(id, ip), net[ip]);
    }
  }

  /**
   From traversal to allocation: a required device is assigned, to exactly one gateway, iff some gateway that responds
   and is reachable has it, and the gateway it is assigned to is such a one.
   */
  lemma {:induction false} StreamsComeFromReachableGateways(net: Network, self: Node, order: seq<Node>, parents: seq<nat>,
                                         graph: map<Id, seq<Id>>, ids: seq<DeviceId>, d: DeviceId)
    requires IsLinkGraph(net, self, order, parents, graph) && d in ids
    ensures var mapping := A.Optimal(A.HostShares(ids, HostDataOf(DataOf(net, order))), self.ip);
      && ((exists ip :: A.Assigned(mapping, ip, d)) <==>
          (exists id, ip :: Reachable(net, self, Node(id, ip)) && ip in net && d in net[ip].devices))
      && (forall ip :: A.Assigned(mapping, ip, d) ==>
          exists id :: Reachable(net, self, Node(id, ip)) && ip in net && d in net[ip].devices)
      && (forall a, b :: A.Assigned(mapping, a, d) && A.Assigned(mapping, b, d) ==> a == b)
  {
    var hosts := HostDataOf(DataOf(net, order));
    A.AllocationIsExactPartition(ids, hosts, self.ip);
    forall ip
      ensures A.Hosts(hosts, ip, d) <==> exists id :: Reachable(net, self, Node(id, ip)) && ip in net && d in net[ip].devices
    {
      HostsAreReachableResponders(net, self, order, parents, graph, ip, d);
    }
  }
}
