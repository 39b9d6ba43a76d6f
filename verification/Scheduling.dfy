/**
 Choosing the gateways that execute and watch an app
 (platform/app-manager/scheduler.js:6-76, 98-180). Which of the other candidates watches is left open.
 */
module Scheduling {
  import opened Vocabulary
  import A = Allocation

  datatype Gateway = Gateway(id: string, ip: Ip, memoryFreeMB: real, cpuFreePercent: real, numDevicesSupported: nat)

  datatype Usage = Usage(memoryFreeMB: real, cpuFreePercent: real)

  /** A placement, or the error that no gateway has enough resources. */
  datatype Placement = LowOnResources | Placed(executor: Gateway, watcher: Option<Gateway>)

  const CPU_FREE_PERCENT_THRESHOLD := 0.05
  const MEM_FREE_MB_THRESHOLD := 200.0

  function CompareGateways(a: Gateway, b: Gateway): Gateway {
    if a.numDevicesSupported == b.numDevicesSupported then
      if a.memoryFreeMB == b.memoryFreeMB then (if a.cpuFreePercent >= b.cpuFreePercent then a else b)
      else if a.memoryFreeMB > b.memoryFreeMB then a else b
    else if a.numDevicesSupported > b.numDevicesSupported then a else b
  }

  /** Strictly ahead in the order devices, then memory, then CPU. */
  predicate Ahead(a: Gateway, b: Gateway) {
    || a.numDevicesSupported > b.numDevicesSupported
    || (a.numDevicesSupported == b.numDevicesSupported && a.memoryFreeMB > b.memoryFreeMB)
    || (a.numDevicesSupported == b.numDevicesSupported && a.memoryFreeMB == b.memoryFreeMB && a.cpuFreePercent > b.cpuFreePercent)
  }

  predicate HasResources(g: Gateway) {
    g.cpuFreePercent >= CPU_FREE_PERCENT_THRESHOLD && g.memoryFreeMB >= MEM_FREE_MB_THRESHOLD
  }

  ghost predicate DistinctIds(gateways: seq<Gateway>) {
    forall i, j :: 0 <= i < j < |gateways| ==> gateways[i].id != gateways[j].id
  }

  /** No gateway with enough resources is ahead of `g`, and those listed before `g` are all behind it. */
  ghost predicate IsFirstBest(gateways: seq<Gateway>, g: Gateway) {
    exists k :: 0 <= k < |gateways| && gateways[k] == g && HasResources(g)
      && (forall j :: 0 <= j < |gateways| && HasResources(gateways[j]) ==> !Ahead(gateways[j], g))
      && (forall j :: 0 <= j < k && HasResources(gateways[j]) ==> Ahead(g, gateways[j]))
  }

  method Select(gateways: seq<Gateway>) returns (result: Placement)
    requires DistinctIds(gateways)
    ensures result.LowOnResources? <==> forall g :: g in gateways ==> !HasResources(g)
    ensures result.Placed? ==>
      && IsFirstBest(gateways, result.executor)
      && (result.watcher.None? <==> forall g :: g in gateways && HasResources(g) ==> g == result.executor)
      && (result.watcher.Some? ==>
            && result.watcher.value in gateways && HasResources(result.watcher.value)
            && result.watcher.value.id != result.executor.id)
  {
    var candidates := Filter(gateways);
    FilteredMembers(gateways, candidates);
    if |candidates| == 0 {
      return LowOnResources;
    }
    var executor := Best(candidates);
    FirstOfFiltered(gateways, candidates, executor);
    var watcher := ChooseWatcher(candidates, executor);
    result := Placed(executor, watcher);
  }

  /** `candidates.reduce(compareGateways)`. */
  method Best(candidates: seq<Gateway>) returns (best: Gateway)
    requires candidates != [] && forall k :: 0 <= k < |candidates| ==> HasResources(candidates[k])
    ensures best in candidates && IsFirstBest(candidates, best)
  {
    best := candidates[0];
    ghost var at := 0;
    for i := 1 to |candidates|
      invariant 0 <= at < i && best == candidates[at]
      invariant forall j :: 0 <= j < i ==> !Ahead(candidates[j], best)
      invariant forall j :: 0 <= j < at ==> Ahead(best, candidates[j])
    {
      var better := CompareGateways(best, candidates[i]);
      if better != best {
        at := i;
      }
      best := better;
    }
  }

  /** Splices the executor out of the candidates and takes any of the others. */
  method ChooseWatcher(candidates: seq<Gateway>, executor: Gateway) returns (watcher: Option<Gateway>)
    requires executor in candidates && DistinctIds(candidates)
    ensures watcher.None? <==> forall g :: g in candidates ==> g == executor
    ensures watcher.Some? ==> watcher.value in candidates && watcher.value.id != executor.id
  {
    var index := 0;
    while candidates[index] != executor
      invariant 0 <= index < |candidates| && executor !in candidates[..index]
      decreases |candidates| - index
    {
      index := index + 1;
    }
    var others := candidates[..index] + candidates[index + 1..];
    watcher := None;
    if |others| != 0 {
      var w: nat :| w < |others|;
      watcher := Some(others[w]);
      assert others[w] == candidates[if w < index then w else w + 1];
      assert others[w] in candidates;
    } else {
      assert |candidates| == 1;
    }
  }

  /** `candidates` are the gateways with enough resources, all of them and in order: those at the positions `at`. */
  ghost predicate IsSelection(gateways: seq<Gateway>, candidates: seq<Gateway>, at: seq<nat>) {
    && |at| == |candidates|
    && (forall i :: 0 <= i < |at| ==> at[i] < |gateways| && gateways[at[i]] == candidates[i] && HasResources(candidates[i]))
    && (forall i, j :: 0 <= i < j < |at| ==> at[i] < at[j])
    && (forall j {:trigger j in at} :: 0 <= j < |gateways| && HasResources(gateways[j]) ==> j in at)
  }

  ghost predicate IsFiltered(gateways: seq<Gateway>, candidates: seq<Gateway>) {
    exists at :: IsSelection(gateways, candidates, at)
  }

  method Filter(gateways: seq<Gateway>) returns (candidates: seq<Gateway>)
    ensures IsFiltered(gateways, candidates)
  {
    candidates := [];
    ghost var at: seq<nat> := [];
    for n := 0 to |gateways|
      invariant IsSelection(gateways[..n], candidates, at)
    {
      if HasResources(gateways[n]) {
        ghost var before := at;
        candidates, at := candidates + [gateways[n]], at + [n];
        assert at[|before|] == n && forall i :: 0 <= i < |before| ==> at[i] == before[i];
      }
    }
    assert gateways[..|gateways|] == gateways;
  }

  lemma FilteredMembers(gateways: seq<Gateway>, candidates: seq<Gateway>)
    requires DistinctIds(gateways) && IsFiltered(gateways, candidates)
    ensures DistinctIds(candidates)
    ensures forall g :: g in candidates <==> g in gateways && HasResources(g)
  {
    var at :| IsSelection(gateways, candidates, at);
    forall g | g in gateways && HasResources(g)
      ensures g in candidates
    {
      var j :| 0 <= j < |gateways| && gateways[j] == g;
      assert j in at;
      var i :| 0 <= i < |at| && at[i] == j;
      assert candidates[i] == g;
    }
  }

  lemma FirstOfFiltered(gateways: seq<Gateway>, candidates: seq<Gateway>, best: Gateway)
    requires IsFiltered(gateways, candidates) && IsFirstBest(candidates, best)
    ensures IsFirstBest(gateways, best)
  {
    var at :| IsSelection(gateways, candidates, at);
    var k :| 0 <= k < |candidates| && candidates[k] == best
      && (forall j :: 0 <= j < k && HasResources(candidates[j]) ==> Ahead(best, candidates[j]));
    forall j | 0 <= j < |gateways| && HasResources(gateways[j])
      ensures !Ahead(gateways[j], best)
      ensures j < at[k] ==> Ahead(best, gateways[j])
    {
      assert j in at;
      var i :| 0 <= i < |at| && at[i] == j;
      assert gateways[j] == candidates[i];
    }
  }

  /** There is at most one first best gateway: the contract of Select determines the executor. */
  lemma FirstBestIsUnique(gateways: seq<Gateway>, a: Gateway, b: Gateway)
    requires IsFirstBest(gateways, a) && IsFirstBest(gateways, b)
    ensures a == b
  {
  }

  /** The gateways of the link graph with their usage and the number of required devices that each hosts. */
  method AvailableGateways(ids: seq<DeviceId>, gatewayIds: seq<string>, data: seq<A.HostData>, usages: seq<Usage>)
      returns (available: seq<Gateway>)
    requires |gatewayIds| == |data| == |usages| && forall i, j :: 0 <= i < j < |gatewayIds| ==> gatewayIds[i] != gatewayIds[j]
    ensures |available| == |data| && DistinctIds(available)
    ensures forall k :: 0 <= k < |data| ==>
              available[k] == Gateway(gatewayIds[k], data[k].ip, usages[k].memoryFreeMB, usages[k].cpuFreePercent,
                                      |A.DevicesOf(A.HostShares(ids, data), data[k].ip)|)
    ensures A.NoDuplicates(ids) && A.DistinctAddresses(data) ==>
              forall k :: 0 <= k < |data| ==>
                available[k].numDevicesSupported == |set d | d in ids && A.Hosts(data, data[k].ip, d)|
  {
    var shares := A.GetHostGateways(ids, data);
    available := [];
    for k := 0 to |data|
      invariant |available| == k
      invariant forall j :: 0 <= j < k ==>
                  available[j] == Gateway(gatewayIds[j], data[j].ip, usages[j].memoryFreeMB, usages[j].cpuFreePercent,
                                          |A.DevicesOf(shares, data[j].ip)|)
    {
      available := available + [Gateway(gatewayIds[k], data[k].ip, usages[k].memoryFreeMB, usages[k].cpuFreePercent,
                                        |A.DevicesOf(shares, data[k].ip)|)];
    }
    if A.NoDuplicates(ids) && A.DistinctAddresses(data) {
      forall k | 0 <= k < |data|
        ensures available[k].numDevicesSupported == |set d | d in ids && A.Hosts(data, data[k].ip, d)|
      {
        A.HostSharesCount(ids, data, data[k].ip);
      }
    }
  }
}
