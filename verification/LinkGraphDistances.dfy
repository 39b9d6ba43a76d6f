/**
 The link graph traversal is breadth-first: gateways are contacted in the order of their distance, and where a gateway
 that fails leaves dangling edges can be told from the network
 (platform/api-server/api/controllers/link-graph-controller.js:23-54).
 */
module LinkGraphDistances {
  import opened LinkGraphs

  /** A walk of d steps through responding gateways leads from `self` to `n`. */
  ghost predicate InSteps(net: Network, self: Node, n: Node, d: nat)
    decreases d
  {
    if d == 0 then n == self else exists m :: InSteps(net, self, m, d - 1) && Lists(net, m, n)
  }

  /** d is the length of a shortest such walk. */
  ghost predicate IsDistance(net: Network, self: Node, n: Node, d: nat) {
    InSteps(net, self, n, d) && forall e: nat :: InSteps(net, self, n, e) ==> d <= e
  }

  ghost predicate ParentsBefore(parents: seq<nat>) {
    forall m {:trigger parents[m]} :: 0 < m < |parents| ==> parents[m] < m
  }

  /** The depth of node m in the tree of discoveries. */
  function Depth(parents: seq<nat>, m: nat): nat
    requires m < |parents| && ParentsBefore(parents)
  {
    if m == 0 then 0 else 1 + Depth(parents, parents[m])
  }

  lemma DiscoveriesAreLater(net: Network, nodes: seq<Node>, parents: seq<nat>)
    requires Discovered(net, nodes, parents)
    ensures ParentsBefore(parents)
  {
    forall m | 0 < m < |parents|
      ensures parents[m] < m
    {
      assert FoundFirst(net, nodes, parents, m);
    }
  }

  lemma {:induction false} InStepsReachable(net: Network, self: Node, n: Node, d: nat)
    requires InSteps(net, self, n, d)
    ensures Reachable(net, self, n)
    decreases d
  {
    if d == 0 {
      SelfReachable(net, self);
    } else {
      var m :| InSteps(net, self, m, d - 1) && Lists(net, m, n);
      InStepsReachable(net, self, m, d - 1);
      ReachableStep(net, self, m, n);
    }
  }

  lemma {:induction false} TreeWalk(net: Network, self: Node, nodes: seq<Node>, parents: seq<nat>, m: nat)
    requires m < |nodes| && nodes[0] == self && Discovered(net, nodes, parents) && ParentsBefore(parents)
    ensures InSteps(net, self, nodes[m], Depth(parents, m))
  {
    if m > 0 {
      assert FoundFirst(net, nodes, parents, m);
      TreeWalk(net, self, nodes, parents, parents[m]);
    }
  }

  /** Depth does not decrease along the order of contacts. */
  lemma {:induction false} DepthGrows(net: Network, nodes: seq<Node>, parents: seq<nat>, a: nat, b: nat)
    requires a <= b < |nodes| && Discovered(net, nodes, parents) && ParentsBefore(parents)
    ensures Depth(parents, a) <= Depth(parents, b)
  {
    if 0 < a {
      assert parents[a] <= parents[b];
      DepthGrows(net, nodes, parents, parents[a], parents[b]);
    }
  }

  /** No walk to a contacted node is shorter than its depth: its first lister was found at the earliest possible depth. */
  lemma {:induction false} NoShorterWalk(net: Network, self: Node, nodes: seq<Node>, parents: seq<nat>, m: nat, d: nat)
    requires m < |nodes| && nodes[0] == self && DistinctIds(nodes) && AreTheReachable(net, self, nodes)
    requires Discovered(net, nodes, parents) && ParentsBefore(parents) && InSteps(net, self, nodes[m], d)
    ensures Depth(parents, m) <= d
    decreases d
  {
    if m > 0 {
      assert nodes[m].id != nodes[0].id;
      var before :| InSteps(net, self, before, d - 1) && Lists(net, before, nodes[m]);
      InStepsReachable(net, self, before, d - 1);
      assert before in nodes;
      var i :| 0 <= i < |nodes| && nodes[i] == before;
      NoShorterWalk(net, self, nodes, parents, i, d - 1);
      assert FoundFirst(net, nodes, parents, m);
      assert parents[m] <= i;
      DepthGrows(net, nodes, parents, parents[m], i);
    }
  }

  /** The depth at which a gateway is discovered is its distance. */
  lemma DepthIsDistance(net: Network, self: Node, order: seq<Node>, parents: seq<nat>, graph: map<Id, seq<Id>>, m: nat)
    requires IsLinkGraph(net, self, order, parents, graph) && ParentsBefore(parents) && m < |order|
    ensures IsDistance(net, self, order[m], Depth(parents, m))
  {
    TreeWalk(net, self, order, parents, m);
    forall e: nat | InSteps(net, self, order[m], e)
      ensures Depth(parents, m) <= e
    {
      NoShorterWalk(net, self, order, parents, m, e);
    }
  }

  /** Gateways are contacted in the order of their distance. */
  lemma NearerAreContactedFirst(net: Network, self: Node, order: seq<Node>, parents: seq<nat>, graph: map<Id, seq<Id>>,
                                a: nat, b: nat, near: nat, far: nat)
    requires IsLinkGraph(net, self, order, parents, graph) && a < |order| && b < |order|
    requires IsDistance(net, self, order[a], near) && IsDistance(net, self, order[b], far) && near < far
    ensures a < b
  {
    DiscoveriesAreLater(net, order, parents);
    DepthIsDistance(net, self, order, parents, graph, a);
    DepthIsDistance(net, self, order, parents, graph, b);
    if b <= a {
      DepthGrows(net, order, parents, b, a);
    }
  }

  lemma InOrder(net: Network, self: Node, order: seq<Node>, n: Node, d: nat) returns (k: nat)
    requires AreTheReachable(net, self, order) && IsDistance(net, self, n, d)
    ensures k < |order| && order[k] == n
  {
    InStepsReachable(net, self, n, d);
    assert n in order;
    k :| 0 <= k < |order| && order[k] == n;
  }

  /** A gateway that fails leaves a dangling edge at every responding gateway that lists it and is farther away. */
  lemma NearerFailureDangles(net: Network, self: Node, order: seq<Node>, parents: seq<nat>, graph: map<Id, seq<Id>>,
                             n: Node, near: nat, f: Node, far: nat)
    requires IsLinkGraph(net, self, order, parents, graph)
    requires Lists(net, n, f) && !Responds(net, f)
    requires IsDistance(net, self, f, near) && IsDistance(net, self, n, far) && near < far
    ensures n.id in graph && f.id in graph[n.id] && f.id !in graph
  {
    var j := InOrder(net, self, order, f, near);
    var i := InOrder(net, self, order, n, far);
    NearerAreContactedFirst(net, self, order, parents, graph, j, i, near, far);
    IdsMembers(Neighbors(net, n), f.id);
    EdgeSurvives(net, order, graph, i, j);
  }

  /** Every failing gateway that is listed is farther away than the gateway that lists it. */
  ghost predicate FailuresAreFarther(net: Network, self: Node) {
    forall n, f, near, far ::
      Lists(net, n, f) && !Responds(net, f) && IsDistance(net, self, n, near) && IsDistance(net, self, f, far) ==> near < far
  }

  /** Then the link graph has no dangling edge. */
  lemma FartherFailuresLeaveNone(net: Network, self: Node, order: seq<Node>, parents: seq<nat>, graph: map<Id, seq<Id>>)
    requires IsLinkGraph(net, self, order, parents, graph)
    requires FailuresAreFarther(net, self)
    ensures EdgeClosed(graph)
  {
    DiscoveriesAreLater(net, order, parents);
    forall i, j | 0 <= j < i < |order| && Responds(net, order[i]) && !Responds(net, order[j])
      ensures order[j].id !in Ids(Neighbors(net, order[i]))
    {
      DepthIsDistance(net, self, order, parents, graph, i);
      DepthIsDistance(net, self, order, parents, graph, j);
      DepthGrows(net, order, parents, j, i);
      if order[j].id in Ids(Neighbors(net, order[i])) {
        ListedByOrder(net, self, order, i, j);
      }
    }
    EdgeClosedExactlyWhen(net, self, order, parents, graph);
  }

  /** Where ids determine gateways, listing the id of a contacted gateway is listing it. */
  lemma ListedByOrder(net: Network, self: Node, order: seq<Node>, i: nat, j: nat)
    requires DistinctIds(order) && AreTheReachable(net, self, order) && i < |order| && j < |order|
    requires Responds(net, order[i]) && order[j].id in Ids(Neighbors(net, order[i]))
    ensures Lists(net, order[i], order[j])
  {
    IdsMembers(Neighbors(net, order[i]), order[j].id);
    var k :| 0 <= k < |Neighbors(net, order[i])| && Neighbors(net, order[i])[k].id == order[j].id;
    var n := Neighbors(net, order[i])[k];
    assert Lists(net, order[i], n) && order[i] in order;
    ReachableStep(net, self, order[i], n);
    assert n in order;
    var p :| 0 <= p < |order| && order[p] == n;
  }
}
