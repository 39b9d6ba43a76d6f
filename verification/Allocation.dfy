/**
 Placing the required devices of an application on the gateways that host them
 (platform/sensor-stream-manager/sensor-stream-manager.js:425-518).

 A JavaScript object that maps gateway addresses to device lists is a sequence of
 shares with distinct addresses, in the object's key order.
 */
module Allocation {
  import opened Vocabulary

  /** One key of a gateway-to-devices object, with its list. */
  datatype Share = Share(ip: Ip, devices: seq<DeviceId>)

  /** One entry of the link graph's `data`: what a gateway reported about itself. */
  datatype HostData = HostData(ip: Ip, devices: seq<DeviceId>)

  ghost predicate NoDuplicates<T>(xs: seq<T>) {
    forall i, j :: 0 <= i < j < |xs| ==> xs[i] != xs[j]
  }

  ghost predicate DistinctIps(shares: seq<Share>) {
    forall i, j :: 0 <= i < j < |shares| ==> shares[i].ip != shares[j].ip
  }

  ghost predicate Disjoint(a: seq<DeviceId>, b: seq<DeviceId>) {
    forall d :: d in a ==> d !in b
  }

  ghost predicate PairwiseDisjoint(shares: seq<Share>) {
    forall i, j :: 0 <= i < j < |shares| ==> Disjoint(shares[i].devices, shares[j].devices)
  }

  /** Gateway `ip` is listed with device `d`. */
  ghost predicate Assigned(shares: seq<Share>, ip: Ip, d: DeviceId) {
    exists k :: 0 <= k < |shares| && shares[k].ip == ip && d in shares[k].devices
  }

  predicate HasIp(shares: seq<Share>, ip: Ip) {
    exists k :: 0 <= k < |shares| && shares[k].ip == ip
  }

  /** The list stored under `ip`, or the empty list. */
  function DevicesOf(shares: seq<Share>, ip: Ip): seq<DeviceId> {
    if shares == [] then []
    else if shares[0].ip == ip then shares[0].devices
    else DevicesOf(shares[1..], ip)
  }

  lemma DevicesOfAt(shares: seq<Share>, k: nat)
    requires DistinctIps(shares) && k < |shares|
    ensures DevicesOf(shares, shares[k].ip) == shares[k].devices
  {
    if k > 0 {
      DevicesOfAt(shares[1..], k - 1);
    }
  }

  lemma {:induction false} DevicesOfAbsent(shares: seq<Share>, ip: Ip)
    requires !HasIp(shares, ip)
    ensures DevicesOf(shares, ip) == []
  {
    if shares != [] {
      assert shares[0].ip != ip;
      assert forall k :: 0 <= k < |shares[1..]| ==> shares[1..][k] == shares[k + 1];
      DevicesOfAbsent(shares[1..], ip);
    }
  }

  lemma {:induction false} AssignedIsDevicesOf(shares: seq<Share>, ip: Ip, d: DeviceId)
    requires DistinctIps(shares)
    ensures Assigned(shares, ip, d) <==> d in DevicesOf(shares, ip)
  {
    if k :| 0 <= k < |shares| && shares[k].ip == ip {
      DevicesOfAt(shares, k);
    } else {
      DevicesOfAbsent(shares, ip);
    }
  }

  // ---------------------------------------------------------------------------
  // Which gateways host which required devices

  ghost predicate DistinctAddresses(data: seq<HostData>) {
    forall i, j :: 0 <= i < j < |data| ==> data[i].ip != data[j].ip
  }

  /** Gateway `ip` reported device `d`. */
  ghost predicate Hosts(data: seq<HostData>, ip: Ip, d: DeviceId) {
    exists k :: 0 <= k < |data| && data[k].ip == ip && d in data[k].devices
  }

  /** Pushes `d` on the list of `ip`, creating the key when it is missing. */
  function PushDevice(shares: seq<Share>, ip: Ip, d: DeviceId): seq<Share> {
    if shares == [] then [Share(ip, [d])]
    else if shares[0].ip == ip then [Share(ip, shares[0].devices + [d])] + shares[1..]
    else [shares[0]] + PushDevice(shares[1..], ip, d)
  }

  /** The pushes of one gateway entry for the first devices `ids`. */
  function PushMatches(shares: seq<Share>, ids: seq<DeviceId>, host: HostData): seq<Share> {
    if ids == [] then shares
    else
      var before := PushMatches(shares, ids[..|ids| - 1], host);
      var d := ids[|ids| - 1];
      if d in host.devices then PushDevice(before, host.ip, d) else before
  }

  function HostShares(ids: seq<DeviceId>, data: seq<HostData>): seq<Share> {
    if data == [] then []
    else PushMatches(HostShares(ids, data[..|data| - 1]), ids, data[|data| - 1])
  }

  method GetHostGateways(ids: seq<DeviceId>, data: seq<HostData>) returns (shares: seq<Share>)
    ensures shares == HostShares(ids, data)
  {
    shares := [];
    for g := 0 to |data|
      invariant shares == HostShares(ids, data[..g])
    {
      ghost var before := shares;
      for i := 0 to |ids|
        invariant shares == PushMatches(before, ids[..i], data[g])
      {
        assert ids[..i + 1][..i] == ids[..i];
        if ids[i] in data[g].devices {
          shares := PushDevice(shares, data[g].ip, ids[i]);
        }
      }
      assert ids[..|ids|] == ids;
      assert data[..g + 1][..g] == data[..g];
    }
    assert data[..|data|] == data;
  }

  ghost predicate NonEmptyShares(shares: seq<Share>) {
    forall k :: 0 <= k < |shares| ==> shares[k].devices != []
  }

  lemma {:induction false} PushDeviceIps(shares: seq<Share>, ip: Ip, d: DeviceId)
    ensures var r := PushDevice(shares, ip, d);
      && |shares| <= |r| <= |shares| + 1
      && (forall k :: 0 <= k < |shares| ==> r[k].ip == shares[k].ip)
      && (|r| == |shares| + 1 ==> r[|shares|].ip == ip && !HasIp(shares, ip))
  {
    if shares != [] && shares[0].ip != ip {
      PushDeviceIps(shares[1..], ip, d);
      assert forall k :: 0 < k < |shares| ==> shares[1..][k - 1] == shares[k];
      var r := PushDevice(shares, ip, d);
      assert r[1..] == PushDevice(shares[1..], ip, d);
      assert forall k :: 0 < k < |r| ==> r[1..][k - 1] == r[k];
    }
  }

  lemma PushDeviceEffect(shares: seq<Share>, ip: Ip, d: DeviceId)
    requires DistinctIps(shares) && NonEmptyShares(shares)
    ensures DistinctIps(PushDevice(shares, ip, d)) && NonEmptyShares(PushDevice(shares, ip, d))
    ensures forall other ::
              DevicesOf(PushDevice(shares, ip, d), other) ==
              DevicesOf(shares, other) + (if other == ip then [d] else [])
  {
    PushDeviceIps(shares, ip, d);
    var r := PushDevice(shares, ip, d);
    if shares == [] {
      forall other ensures DevicesOf(r, other) == if other == ip then [d] else [] {
        assert r[1..] == [];
      }
    } else if shares[0].ip == ip {
      assert r[1..] == shares[1..];
      assert forall k :: 0 < k < |r| ==> r[k] == shares[k];
    } else {
      assert DistinctIps(shares[1..]) && NonEmptyShares(shares[1..]);
      PushDeviceEffect(shares[1..], ip, d);
      assert r[1..] == PushDevice(shares[1..], ip, d);
      assert forall k :: 0 < k < |r| ==> r[k] == r[1..][k - 1];
      assert r[0] == shares[0];
    }
  }

  /** The required devices that a gateway entry adds to its own list. */
  function Matches(ids: seq<DeviceId>, devices: seq<DeviceId>): seq<DeviceId> {
    if ids == [] then []
    else Matches(ids[..|ids| - 1], devices) + (if ids[|ids| - 1] in devices then [ids[|ids| - 1]] else [])
  }

  lemma PushMatchesEffect(shares: seq<Share>, ids: seq<DeviceId>, host: HostData)
    requires DistinctIps(shares) && NonEmptyShares(shares)
    ensures DistinctIps(PushMatches(shares, ids, host)) && NonEmptyShares(PushMatches(shares, ids, host))
    ensures forall other ::
              DevicesOf(PushMatches(shares, ids, host), other) ==
              DevicesOf(shares, other) + (if other == host.ip then Matches(ids, host.devices) else [])
  {
    if ids != [] {
      PushMatchesEffect(shares, ids[..|ids| - 1], host);
      PushDeviceEffect(PushMatches(shares, ids[..|ids| - 1], host), host.ip, ids[|ids| - 1]);
    }
  }

  lemma {:induction false} MatchesMembers(ids: seq<DeviceId>, devices: seq<DeviceId>)
    ensures forall d :: d in Matches(ids, devices) <==> d in ids && d in devices
    ensures NoDuplicates(ids) ==> NoDuplicates(Matches(ids, devices))
  {
    if ids != [] {
      MatchesMembers(ids[..|ids| - 1], devices);
      assert ids == ids[..|ids| - 1] + [ids[|ids| - 1]];
      assert forall d :: d in ids <==> d in ids[..|ids| - 1] || d == ids[|ids| - 1];
    }
  }

  /** The host table lists exactly the hosted required devices, under distinct addresses, without empty lists. */
  lemma HostSharesExact(ids: seq<DeviceId>, data: seq<HostData>)
    ensures DistinctIps(HostShares(ids, data)) && NonEmptyShares(HostShares(ids, data))
    ensures forall ip, d :: d in DevicesOf(HostShares(ids, data), ip) <==> d in ids && Hosts(data, ip, d)
  {
    if data != [] {
      var front, last := data[..|data| - 1], data[|data| - 1];
      HostSharesExact(ids, front);
      PushMatchesEffect(HostShares(ids, front), ids, last);
      MatchesMembers(ids, last.devices);
      forall ip, d
        ensures d in DevicesOf(HostShares(ids, data), ip) <==> d in ids && Hosts(data, ip, d)
      {
        HostsSnoc(front, last, ip, d);
        assert data == front + [last];
      }
    }
  }

  lemma HostsSnoc(front: seq<HostData>, last: HostData, ip: Ip, d: DeviceId)
    ensures Hosts(front + [last], ip, d) <==> Hosts(front, ip, d) || (last.ip == ip && d in last.devices)
  {
    var data := front + [last];
    if Hosts(front, ip, d) {
      var k :| 0 <= k < |front| && front[k].ip == ip && d in front[k].devices;
      assert data[k] == front[k];
    }
    if last.ip == ip && d in last.devices {
      assert data[|front|] == last;
    }
  }

  lemma {:induction false} DistinctCount<T>(xs: seq<T>)
    requires NoDuplicates(xs)
    ensures |xs| == |set x | x in xs|
  {
    if xs != [] {
      var front, last := xs[..|xs| - 1], xs[|xs| - 1];
      DistinctCount(front);
      assert xs == front + [last];
      assert (set x | x in xs) == (set x | x in front) + {last};
      assert last !in front;
    }
  }

  /** With one entry per address and no repeated requirement, no list repeats a device. */
  lemma HostSharesNoDuplicates(ids: seq<DeviceId>, data: seq<HostData>, ip: Ip)
    requires NoDuplicates(ids) && DistinctAddresses(data)
    ensures NoDuplicates(DevicesOf(HostShares(ids, data), ip))
  {
    if data != [] {
      var front, last := data[..|data| - 1], data[|data| - 1];
      HostSharesNoDuplicates(ids, front, ip);
      HostSharesExact(ids, front);
      PushMatchesEffect(HostShares(ids, front), ids, last);
      MatchesMembers(ids, last.devices);
      if ip == last.ip {
        NothingHosted(ids, front, ip);
      }
    }
  }

  /** Each gateway is listed with as many devices as it hosts required ones. */
  lemma HostSharesCount(ids: seq<DeviceId>, data: seq<HostData>, ip: Ip)
    requires NoDuplicates(ids) && DistinctAddresses(data)
    ensures |DevicesOf(HostShares(ids, data), ip)| == |set d | d in ids && Hosts(data, ip, d)|
  {
    var devices := DevicesOf(HostShares(ids, data), ip);
    HostSharesExact(ids, data);
    HostSharesNoDuplicates(ids, data, ip);
    DistinctCount(devices);
    assert (set d | d in devices) == set d | d in ids && Hosts(data, ip, d);
  }

  lemma NothingHosted(ids: seq<DeviceId>, data: seq<HostData>, ip: Ip)
    requires forall k :: 0 <= k < |data| ==> data[k].ip != ip
    ensures DevicesOf(HostShares(ids, data), ip) == []
  {
    HostSharesExact(ids, data);
    var listed := DevicesOf(HostShares(ids, data), ip);
    assert forall k :: 0 <= k < |listed| ==> listed[k] in listed;
    assert |listed| > 0 ==> Hosts(data, ip, listed[0]);
    assert |listed| == 0;
  }

  // ---------------------------------------------------------------------------
  // Set difference on lists

  /** `[...difference(new Set(a), new Set(b))]`: first occurrences in `a` of what is not in `b`. */
  function Minus(a: seq<DeviceId>, b: seq<DeviceId>): seq<DeviceId> {
    if a == [] then []
    else
      var front := Minus(a[..|a| - 1], b);
      var d := a[|a| - 1];
      if d in b || d in front then front else front + [d]
  }

  lemma {:induction false} MinusMembers(a: seq<DeviceId>, b: seq<DeviceId>)
    ensures forall d :: d in Minus(a, b) <==> d in a && d !in b
    ensures NoDuplicates(Minus(a, b)) && |Minus(a, b)| <= |a|
  {
    if a != [] {
      MinusMembers(a[..|a| - 1], b);
      assert a == a[..|a| - 1] + [a[|a| - 1]];
      assert forall d :: d in a <==> d in a[..|a| - 1] || d == a[|a| - 1];
    }
  }

  lemma {:induction false} MinusNothing(a: seq<DeviceId>, b: seq<DeviceId>)
    requires NoDuplicates(a) && Disjoint(a, b)
    ensures Minus(a, b) == a
  {
    if a != [] {
      var front := a[..|a| - 1];
      assert forall d :: d in front ==> d in a;
      MinusNothing(front, b);
      assert a[|a| - 1] in a;
    }
  }

  /** Deletes every element of `setB` from a copy of `setA`, as the source's `difference` does. */
  method Difference(listA: seq<DeviceId>, setB: seq<DeviceId>) returns (result: seq<DeviceId>)
    ensures result == Minus(listA, setB)
  {
    // new Set(listA), in insertion order
    result := [];
    for i := 0 to |listA|
      invariant result == Minus(listA[..i], [])
    {
      assert listA[..i + 1][..i] == listA[..i];
      if listA[i] !in result {
        result := result + [listA[i]];
      }
    }
    assert listA[..|listA|] == listA;
    for i := 0 to |setB|
      invariant result == Minus(listA, setB[..i])
    {
      result := Delete(result, setB[i]);
      DeleteExtendsMinus(listA, setB[..i], setB[i]);
      assert setB[..i + 1] == setB[..i] + [setB[i]];
    }
    assert setB[..|setB|] == setB;
  }

  function Delete(xs: seq<DeviceId>, x: DeviceId): seq<DeviceId> {
    if xs == [] then []
    else Delete(xs[..|xs| - 1], x) + (if xs[|xs| - 1] == x then [] else [xs[|xs| - 1]])
  }

  lemma DeleteExtendsMinus(a: seq<DeviceId>, b: seq<DeviceId>, x: DeviceId)
    ensures Delete(Minus(a, b), x) == Minus(a, b + [x])
  {
    if a != [] {
      var front, d := a[..|a| - 1], a[|a| - 1];
      DeleteExtendsMinus(front, b, x);
      MinusMembers(front, b);
      MinusMembers(front, b + [x]);
      if d !in b && d !in Minus(front, b) {
        var m := Minus(front, b) + [d];
        assert m[..|m| - 1] == Minus(front, b);
      }
    }
  }

  // ---------------------------------------------------------------------------
  // The allocation

  /** The remote gateways' lists without what the local gateway offers; gateways left with nothing are omitted. */
  function Exclusive(shares: seq<Share>, local: Ip, localDevices: seq<DeviceId>): seq<Share> {
    if shares == [] then []
    else
      var front := Exclusive(shares[..|shares| - 1], local, localDevices);
      var last := shares[|shares| - 1];
      var own := Minus(last.devices, localDevices);
      if last.ip == local || own == [] then front else front + [Share(last.ip, own)]
  }

  /** The pair (i, j): the shorter list gives up what the longer one also has; on a tie list i gives up. */
  function Resolve(ls: seq<Share>, i: nat, j: nat): seq<Share>
    requires i < j < |ls|
  {
    if |ls[i].devices| <= |ls[j].devices|
    then ls[i := Share(ls[i].ip, Minus(ls[i].devices, ls[j].devices))]
    else ls[j := Share(ls[j].ip, Minus(ls[j].devices, ls[i].devices))]
  }

  /** The pairs from (i, j) on, in the order of the two index loops. */
  function Sweep(ls: seq<Share>, i: nat, j: nat): seq<Share>
    requires i < j
    decreases |ls| - i, |ls| - j
  {
    if i >= |ls| then ls
    else if j >= |ls| then Sweep(ls, i + 1, i + 2)
    else Sweep(Resolve(ls, i, j), i, j + 1)
  }

  function NonEmpty(shares: seq<Share>): seq<Share> {
    if shares == [] then []
    else
      var front, last := NonEmpty(shares[..|shares| - 1]), shares[|shares| - 1];
      if last.devices == [] then front else front + [last]
  }

  function Optimal(shares: seq<Share>, local: Ip): seq<Share> {
    var localDevices := DevicesOf(shares, local);
    NonEmpty([Share(local, localDevices)] + Sweep(Exclusive(shares, local, localDevices), 0, 1))
  }

  /** What each remote gateway has and the local one does not. */
  method ExclusiveShares(shares: seq<Share>, local: Ip, localDevices: seq<DeviceId>) returns (remote: seq<Share>)
    ensures remote == Exclusive(shares, local, localDevices)
  {
    remote := [];
    for k := 0 to |shares|
      invariant remote == Exclusive(shares[..k], local, localDevices)
    {
      assert shares[..k + 1][..k] == shares[..k];
      if shares[k].ip != local {
        var own := Difference(shares[k].devices, localDevices);
        if |own| != 0 {
          remote := remote + [Share(shares[k].ip, own)];
        }
      }
    }
    assert shares[..|shares|] == shares;
  }

  /** `kept` is what `own` has and `other` does not, each device once. */
  ghost predicate LosesExactly(own: seq<DeviceId>, other: seq<DeviceId>, kept: seq<DeviceId>) {
    NoDuplicates(kept) && forall d :: d in kept <==> d in own && d !in other
  }

  /** Of lists i and j the longer stays as it is and the other loses exactly what that one has; on a tie i loses. */
  ghost predicate PairRule(before: seq<Share>, after: seq<Share>, i: nat, j: nat)
    requires i < j < |before|
  {
    && |after| == |before|
    && (forall k :: 0 <= k < |before| ==> after[k].ip == before[k].ip)
    && (forall k :: 0 <= k < |before| && k != i && k != j ==> after[k].devices == before[k].devices)
    && (if |before[i].devices| <= |before[j].devices|
        then after[j].devices == before[j].devices && LosesExactly(before[i].devices, before[j].devices, after[i].devices)
        else after[i].devices == before[i].devices && LosesExactly(before[j].devices, before[i].devices, after[j].devices))
  }

  lemma ResolveFollowsRule(ls: seq<Share>, i: nat, j: nat)
    requires i < j < |ls|
    ensures PairRule(ls, Resolve(ls, i, j), i, j)
  {
    MinusMembers(ls[i].devices, ls[j].devices);
    MinusMembers(ls[j].devices, ls[i].devices);
  }

  /** The body of the two index loops. */
  method SeparatePair(lists: seq<Share>, i: nat, j: nat) returns (remote: seq<Share>)
    requires i < j < |lists|
    ensures remote == Resolve(lists, i, j) && PairRule(lists, remote, i, j)
  {
    ResolveFollowsRule(lists, i, j);
    var devicesI, devicesJ := lists[i].devices, lists[j].devices;
    if |devicesI| <= |devicesJ| {
      var kept := Difference(devicesI, devicesJ);
      remote := lists[i := Share(lists[i].ip, kept)];
    } else {
      var kept := Difference(devicesJ, devicesI);
      remote := lists[j := Share(lists[j].ip, kept)];
    }
  }

  /** The inner index loop: list i against all later ones. */
  method SeparateFrom(lists: seq<Share>, i: nat) returns (remote: seq<Share>)
    requires i < |lists|
    ensures |remote| == |lists| && Sweep(remote, i + 1, i + 2) == Sweep(lists, i, i + 1)
  {
    remote := lists;
    var j := i + 1;
    while j < |remote|
      invariant i < j <= |remote| == |lists|
      invariant Sweep(remote, i, j) == Sweep(lists, i, i + 1)
    {
      remote := SeparatePair(remote, i, j);
      j := j + 1;
    }
  }

  /** The two index loops, which overwrite the lists in place. */
  method SeparatePairs(start: seq<Share>) returns (remote: seq<Share>)
    ensures remote == Sweep(start, 0, 1)
  {
    remote := start;
    var i := 0;
    while i < |remote|
      invariant i <= |remote| == |start|
      invariant Sweep(remote, i, i + 1) == Sweep(start, 0, 1)
    {
      remote := SeparateFrom(remote, i);
      i := i + 1;
    }
  }

  method GetOptimalMapping(shares: seq<Share>, local: Ip) returns (optimal: seq<Share>)
    ensures optimal == Optimal(shares, local)
  {
    var localDevices := DevicesOf(shares, local);
    var exclusive := ExclusiveShares(shares, local, localDevices);
    var remote := SeparatePairs(exclusive);
    var combined := [Share(local, localDevices)] + remote;
    optimal := [];
    for k := 0 to |combined|
      invariant optimal == NonEmpty(combined[..k])
    {
      assert combined[..k + 1][..k] == combined[..k];
      if |combined[k].devices| != 0 {
        optimal := optimal + [combined[k]];
      }
    }
    assert combined[..|combined|] == combined;
  }

  // ---------------------------------------------------------------------------
  // What the allocation achieves

  ghost predicate AllNoDuplicates(shares: seq<Share>) {
    forall k :: 0 <= k < |shares| ==> NoDuplicates(shares[k].devices)
  }

  /** Some gateway of the list has device `d`. */
  ghost predicate Offered(shares: seq<Share>, d: DeviceId) {
    exists k :: 0 <= k < |shares| && d in shares[k].devices
  }

  /** `after` has the same gateways as `before`, each with a part of its list, and together the same devices. */
  ghost predicate Thinned(before: seq<Share>, after: seq<Share>) {
    && |after| == |before|
    && (forall k :: 0 <= k < |before| ==>
          && after[k].ip == before[k].ip
          && |after[k].devices| <= |before[k].devices|
          && forall d :: d in after[k].devices ==> d in before[k].devices)
    && (forall d :: Offered(before, d) ==> Offered(after, d))
  }

  lemma ThinnedTransitive(a: seq<Share>, b: seq<Share>, c: seq<Share>)
    requires Thinned(a, b) && Thinned(b, c)
    ensures Thinned(a, c)
  {
  }

  lemma ResolveThins(ls: seq<Share>, i: nat, j: nat)
    requires i < j < |ls| && AllNoDuplicates(ls)
    ensures Thinned(ls, Resolve(ls, i, j)) && AllNoDuplicates(Resolve(ls, i, j))
    ensures Disjoint(Resolve(ls, i, j)[i].devices, Resolve(ls, i, j)[j].devices)
  {
    MinusMembers(ls[i].devices, ls[j].devices);
    MinusMembers(ls[j].devices, ls[i].devices);
    var after := Resolve(ls, i, j);
    forall d | Offered(ls, d)
      ensures Offered(after, d)
    {
      var k :| 0 <= k < |ls| && d in ls[k].devices;
      assert d in after[k].devices || d in after[i].devices || d in after[j].devices;
    }
  }

  lemma {:induction false} SweepThins(ls: seq<Share>, i: nat, j: nat)
    requires i < j && AllNoDuplicates(ls)
    ensures Thinned(ls, Sweep(ls, i, j)) && AllNoDuplicates(Sweep(ls, i, j))
    decreases |ls| - i, |ls| - j
  {
    if i < |ls| {
      if j >= |ls| {
        SweepThins(ls, i + 1, i + 2);
      } else {
        ResolveThins(ls, i, j);
        SweepThins(Resolve(ls, i, j), i, j + 1);
        ThinnedTransitive(ls, Resolve(ls, i, j), Sweep(ls, i, j));
      }
    }
  }

  /** The pairs that the two loops visit before (i, j). */
  ghost predicate DisjointBefore(ls: seq<Share>, i: nat, j: nat) {
    forall a, b :: 0 <= a < b < |ls| && (a < i || (a == i && b < j)) ==> Disjoint(ls[a].devices, ls[b].devices)
  }

  lemma ResolveSeparates(ls: seq<Share>, i: nat, j: nat)
    requires i < j < |ls| && AllNoDuplicates(ls) && DisjointBefore(ls, i, j)
    ensures DisjointBefore(Resolve(ls, i, j), i, j + 1)
  {
    ResolveThins(ls, i, j);
  }

  lemma {:induction false} SweepSeparates(ls: seq<Share>, i: nat, j: nat)
    requires i < j && AllNoDuplicates(ls) && DisjointBefore(ls, i, j)
    ensures PairwiseDisjoint(Sweep(ls, i, j))
    decreases |ls| - i, |ls| - j
  {
    if i >= |ls| {
    } else if j >= |ls| {
      SweepSeparates(ls, i + 1, i + 2);
    } else {
      ResolveThins(ls, i, j);
      ResolveSeparates(ls, i, j);
      SweepSeparates(Resolve(ls, i, j), i, j + 1);
    }
  }

  /** List m has nothing to lose to list k: they share no device, or list k is shorter, or as long but comes before. */
  ghost predicate Uncontested(ls: seq<Share>, k: nat, m: nat)
    requires k < |ls| && m < |ls|
  {
    || Disjoint(ls[k].devices, ls[m].devices)
    || |ls[k].devices| < |ls[m].devices|
    || (k < m && |ls[k].devices| == |ls[m].devices|)
  }

  lemma ResolveKeepsUncontested(ls: seq<Share>, i: nat, j: nat, m: nat)
    requires i < j < |ls| && m < |ls| && AllNoDuplicates(ls)
    requires forall k :: 0 <= k < |ls| && k != m ==> Uncontested(ls, k, m)
    ensures Resolve(ls, i, j)[m] == ls[m]
    ensures forall k :: 0 <= k < |ls| && k != m ==> Uncontested(Resolve(ls, i, j), k, m)
  {
    if m == i {
      assert Uncontested(ls, j, m);
      MinusWithoutShared(ls[m].devices, ls[j].devices);
    } else if m == j {
      assert Uncontested(ls, i, m);
      MinusWithoutShared(ls[m].devices, ls[i].devices);
    }
    ResolveThins(ls, i, j);
    forall k | 0 <= k < |ls| && k != m
      ensures Uncontested(Resolve(ls, i, j), k, m)
    {
      assert Uncontested(ls, k, m);
    }
  }

  lemma MinusWithoutShared(own: seq<DeviceId>, other: seq<DeviceId>)
    requires NoDuplicates(own)
    ensures Disjoint(own, other) || Disjoint(other, own) ==> Minus(own, other) == own
  {
    if Disjoint(own, other) || Disjoint(other, own) {
      MinusNothing(own, other);
    }
  }

  /** A list that is contested by none of the others loses nothing in the sweep. */
  lemma {:induction false} SweepKeepsUncontested(ls: seq<Share>, i: nat, j: nat, m: nat)
    requires i < j && m < |ls| && AllNoDuplicates(ls)
    requires forall k :: 0 <= k < |ls| && k != m ==> Uncontested(ls, k, m)
    ensures |Sweep(ls, i, j)| == |ls| && Sweep(ls, i, j)[m] == ls[m]
    decreases |ls| - i, |ls| - j
  {
    if i < |ls| {
      if j >= |ls| {
        SweepKeepsUncontested(ls, i + 1, i + 2, m);
      } else {
        ResolveThins(ls, i, j);
        ResolveKeepsUncontested(ls, i, j, m);
        SweepKeepsUncontested(Resolve(ls, i, j), i, j + 1, m);
      }
    }
  }

  /** The last list of maximal size loses nothing in the sweep. */
  lemma SweepKeepsLastLargest(ls: seq<Share>, i: nat, j: nat, m: nat)
    requires i < j && m < |ls| && AllNoDuplicates(ls)
    requires forall k :: 0 <= k < |ls| ==> |ls[k].devices| <= |ls[m].devices|
    requires forall k :: m < k < |ls| ==> |ls[k].devices| < |ls[m].devices|
    ensures |Sweep(ls, i, j)| == |ls| && Sweep(ls, i, j)[m] == ls[m]
  {
    SweepKeepsUncontested(ls, i, j, m);
  }

  // The order of the pairs, without the loops: all of them, lexicographically.

  predicate Before(p: (nat, nat), q: (nat, nat)) {
    p.0 < q.0 || (p.0 == q.0 && p.1 < q.1)
  }

  /** The pairs of indices below n from (i, j) on, in lexicographic order. */
  ghost predicate ArePairsFrom(pairs: seq<(nat, nat)>, n: nat, i: nat, j: nat) {
    && (forall a, b :: 0 <= a < b < |pairs| ==> Before(pairs[a], pairs[b]))
    && (forall p: (nat, nat) :: p in pairs <==> p.0 < p.1 < n && !Before(p, (i, j)))
  }

  /** The states of the lists: each pair in turn is resolved by the rule. */
  ghost predicate FollowsRule(states: seq<seq<Share>>, pairs: seq<(nat, nat)>, n: nat) {
    && |states| == |pairs| + 1
    && (forall k :: 0 <= k < |pairs| ==> pairs[k].0 < pairs[k].1 < n)
    && (forall k :: 0 <= k < |states| ==> |states[k]| == n)
    && (forall k :: 0 <= k < |pairs| ==> RuleStep(states, pairs, k, n))
  }

  ghost predicate RuleStep(states: seq<seq<Share>>, pairs: seq<(nat, nat)>, k: nat, n: nat)
    requires k < |pairs| && |states| == |pairs| + 1 && |states[k]| == n && pairs[k].0 < pairs[k].1 < n
  {
    PairRule(states[k], states[k + 1], pairs[k].0, pairs[k].1)
  }

  lemma RowDone(pairs: seq<(nat, nat)>, n: nat, i: nat, j: nat)
    requires i < n <= j && ArePairsFrom(pairs, n, i + 1, i + 2)
    ensures ArePairsFrom(pairs, n, i, j)
  {
  }

  lemma OnePairMore(pairs: seq<(nat, nat)>, n: nat, i: nat, j: nat)
    requires i < j < n && ArePairsFrom(pairs, n, i, j + 1)
    ensures ArePairsFrom([(i, j)] + pairs, n, i, j)
  {
    var all := [(i, j)] + pairs;
    forall a, b | 0 <= a < b < |all|
      ensures Before(all[a], all[b])
    {
      assert all[b] == pairs[b - 1] && pairs[b - 1] in pairs;
      if a > 0 {
        assert all[a] == pairs[a - 1];
      }
    }
  }

  /** One more pair, resolved before all the others. */
  lemma PrependPair(ls: seq<Share>, i: nat, j: nat, rest: seq<(nat, nat)>, states: seq<seq<Share>>)
    requires i < j < |ls| && ArePairsFrom(rest, |ls|, i, j + 1)
    requires FollowsRule(states, rest, |ls|) && states[0] == Resolve(ls, i, j)
    ensures ArePairsFrom([(i, j)] + rest, |ls|, i, j) && FollowsRule([ls] + states, [(i, j)] + rest, |ls|)
  {
    OnePairMore(rest, |ls|, i, j);
    ResolveFollowsRule(ls, i, j);
    var pairs, all := [(i, j)] + rest, [ls] + states;
    forall k | 0 <= k < |pairs|
      ensures pairs[k].0 < pairs[k].1 < |ls|
    {
      assert k > 0 ==> pairs[k] == rest[k - 1];
    }
    forall k | 0 <= k < |pairs|
      ensures RuleStep(all, pairs, k, |ls|)
    {
      if k > 0 {
        assert RuleStep(states, rest, k - 1, |ls|);
      }
    }
  }

  /** The sweep resolves the pairs one after the other, by the rule, in lexicographic order. */
  lemma {:induction false} SweepFollowsRule(ls: seq<Share>, i: nat, j: nat) returns (pairs: seq<(nat, nat)>, states: seq<seq<Share>>)
    requires i < j
    ensures ArePairsFrom(pairs, |ls|, i, j) && FollowsRule(states, pairs, |ls|)
    ensures states[0] == ls && states[|pairs|] == Sweep(ls, i, j)
    decreases |ls| - i, |ls| - j
  {
    if i >= |ls| {
      pairs, states := [], [ls];
    } else if j >= |ls| {
      pairs, states := SweepFollowsRule(ls, i + 1, i + 2);
      RowDone(pairs, |ls|, i, j);
    } else {
      var rest, after := SweepFollowsRule(Resolve(ls, i, j), i, j + 1);
      PrependPair(ls, i, j, rest, after);
      pairs, states := [(i, j)] + rest, [ls] + after;
      assert states[|pairs|] == after[|rest|];
    }
  }

  lemma {:induction false} SweepChangesNothing(ls: seq<Share>, i: nat, j: nat)
    requires i < j && AllNoDuplicates(ls) && PairwiseDisjoint(ls)
    ensures Sweep(ls, i, j) == ls
    decreases |ls| - i, |ls| - j
  {
    if i < |ls| {
      if j >= |ls| {
        SweepChangesNothing(ls, i + 1, i + 2);
      } else {
        assert Disjoint(ls[j].devices, ls[i].devices);
        MinusNothing(ls[i].devices, ls[j].devices);
        MinusNothing(ls[j].devices, ls[i].devices);
        assert Resolve(ls, i, j) == ls;
        SweepChangesNothing(ls, i, j + 1);
      }
    }
  }

  /** Appending a gateway that is not listed yet. */
  lemma AssignedSnoc(front: seq<Share>, last: Share)
    ensures forall ip, d :: Assigned(front + [last], ip, d) <==> Assigned(front, ip, d) || (last.ip == ip && d in last.devices)
    ensures forall ip :: HasIp(front + [last], ip) <==> HasIp(front, ip) || last.ip == ip
    ensures DistinctIps(front + [last]) <==> DistinctIps(front) && !HasIp(front, last.ip)
  {
    var all := front + [last];
    assert all[|front|] == last;
    assert forall k :: 0 <= k < |front| ==> all[k] == front[k];
  }

  lemma {:induction false} ExclusiveMembers(shares: seq<Share>, local: Ip, localDevices: seq<DeviceId>)
    requires DistinctIps(shares)
    ensures var own := Exclusive(shares, local, localDevices);
      && DistinctIps(own) && NonEmptyShares(own) && AllNoDuplicates(own)
      && !HasIp(own, local)
      && (forall ip :: HasIp(own, ip) ==> HasIp(shares, ip))
      && (forall ip, d :: Assigned(own, ip, d) <==> ip != local && Assigned(shares, ip, d) && d !in localDevices)
  {
    if shares != [] {
      var front, last := shares[..|shares| - 1], shares[|shares| - 1];
      assert shares == front + [last];
      AssignedSnoc(front, last);
      ExclusiveMembers(front, local, localDevices);
      MinusMembers(last.devices, localDevices);
      var minus := Minus(last.devices, localDevices);
      if minus == [] {
        assert forall d :: d !in minus;
      }
      AssignedSnoc(Exclusive(front, local, localDevices), Share(last.ip, minus));
    }
  }

  lemma {:induction false} NonEmptyMembers(shares: seq<Share>)
    ensures NonEmptyShares(NonEmpty(shares))
    ensures forall s :: s in NonEmpty(shares) <==> s in shares && s.devices != []
  {
    if shares != [] {
      var front, last := shares[..|shares| - 1], shares[|shares| - 1];
      NonEmptyMembers(front);
      assert shares == front + [last];
    }
  }

  lemma {:induction false} NonEmptyDistinct(shares: seq<Share>)
    requires DistinctIps(shares)
    ensures DistinctIps(NonEmpty(shares))
  {
    if shares != [] {
      var front, last := shares[..|shares| - 1], shares[|shares| - 1];
      NonEmptyDistinct(front);
      NonEmptyMembers(front);
      forall k | 0 <= k < |NonEmpty(front)|
        ensures NonEmpty(front)[k].ip != last.ip
      {
        assert NonEmpty(front)[k] in front;
      }
    }
  }

  lemma NonEmptyAssigned(shares: seq<Share>, ip: Ip, d: DeviceId)
    ensures Assigned(NonEmpty(shares), ip, d) <==> Assigned(shares, ip, d)
  {
    NonEmptyMembers(shares);
    if k :| 0 <= k < |shares| && shares[k].ip == ip && d in shares[k].devices {
      assert shares[k] in NonEmpty(shares);
    }
    if k :| 0 <= k < |NonEmpty(shares)| && NonEmpty(shares)[k].ip == ip && d in NonEmpty(shares)[k].devices {
      assert NonEmpty(shares)[k] in shares;
    }
  }

  /** What the loops leave on the remote gateways, before empty lists are dropped. */
  function Remaining(shares: seq<Share>, local: Ip): seq<Share> {
    Sweep(Exclusive(shares, local, DevicesOf(shares, local)), 0, 1)
  }

  lemma RemainingFacts(shares: seq<Share>, local: Ip)
    requires DistinctIps(shares)
    ensures var own := Exclusive(shares, local, DevicesOf(shares, local));
      && AllNoDuplicates(own) && DistinctIps(own) && !HasIp(own, local)
      && Thinned(own, Remaining(shares, local))
    ensures AllNoDuplicates(Remaining(shares, local)) && PairwiseDisjoint(Remaining(shares, local))
    ensures DistinctIps(Remaining(shares, local)) && !HasIp(Remaining(shares, local), local)
  {
    ExclusiveMembers(shares, local, DevicesOf(shares, local));
    SweepThins(Exclusive(shares, local, DevicesOf(shares, local)), 0, 1);
    SweepSeparates(Exclusive(shares, local, DevicesOf(shares, local)), 0, 1);
  }

  lemma OptimalAssigned(shares: seq<Share>, local: Ip, ip: Ip, d: DeviceId)
    requires DistinctIps(shares)
    ensures Assigned(Optimal(shares, local), ip, d) <==>
      (ip == local && d in DevicesOf(shares, local)) || Assigned(Remaining(shares, local), ip, d)
  {
    var own := Share(local, DevicesOf(shares, local));
    NonEmptyAssigned([own] + Remaining(shares, local), ip, d);
    var all := [own] + Remaining(shares, local);
    assert all[0] == own;
    assert forall k :: 0 <= k < |Remaining(shares, local)| ==> all[k + 1] == Remaining(shares, local)[k];
  }

  lemma DistinctWithFirst(first: Share, rest: seq<Share>)
    requires DistinctIps(rest) && !HasIp(rest, first.ip)
    ensures DistinctIps([first] + rest)
  {
    var all := [first] + rest;
    assert forall k :: 0 < k < |all| ==> all[k] == rest[k - 1];
  }

  /** The result is again an object without repeated keys and without empty lists. */
  lemma OptimalShape(shares: seq<Share>, local: Ip)
    requires DistinctIps(shares)
    ensures DistinctIps(Optimal(shares, local)) && NonEmptyShares(Optimal(shares, local))
  {
    RemainingFacts(shares, local);
    var rest := Remaining(shares, local);
    var own := Share(local, DevicesOf(shares, local));
    DistinctWithFirst(own, rest);
    NonEmptyDistinct([own] + rest);
    NonEmptyMembers([own] + rest);
  }

  /** The local gateway keeps its list as it is. */
  lemma LocalKeepsAll(shares: seq<Share>, local: Ip)
    requires DistinctIps(shares)
    ensures DevicesOf(Optimal(shares, local), local) == DevicesOf(shares, local)
  {
    RemainingFacts(shares, local);
    OptimalShape(shares, local);
    var own := Share(local, DevicesOf(shares, local));
    var all := [own] + Remaining(shares, local);
    NonEmptyMembers(all);
    assert all[0] == own;
    if own.devices == [] {
      forall k | 0 <= k < |Optimal(shares, local)|
        ensures Optimal(shares, local)[k].ip != local
      {
        assert Optimal(shares, local)[k] in all;
      }
      DevicesOfAbsent(Optimal(shares, local), local);
    } else {
      assert own in Optimal(shares, local);
      var k :| 0 <= k < |Optimal(shares, local)| && Optimal(shares, local)[k] == own;
      DevicesOfAt(Optimal(shares, local), k);
    }
  }

  /** A remote gateway only keeps devices that it has and the local gateway lacks. */
  lemma RemoteKeepsOwn(shares: seq<Share>, local: Ip, ip: Ip, d: DeviceId)
    requires DistinctIps(shares)
    requires Assigned(Optimal(shares, local), ip, d) && ip != local
    ensures Assigned(shares, ip, d) && d !in DevicesOf(shares, local)
  {
    RemainingFacts(shares, local);
    OptimalAssigned(shares, local, ip, d);
    ExclusiveMembers(shares, local, DevicesOf(shares, local));
    var rest := Remaining(shares, local);
    var k :| 0 <= k < |rest| && rest[k].ip == ip && d in rest[k].devices;
    assert Assigned(Exclusive(shares, local, DevicesOf(shares, local)), ip, d);
  }

  /** Remote lists come out without repetitions, whatever the input lists repeat. */
  lemma RemoteListsDoNotRepeat(shares: seq<Share>, local: Ip, ip: Ip)
    requires DistinctIps(shares) && ip != local
    ensures NoDuplicates(DevicesOf(Optimal(shares, local), ip))
  {
    RemainingFacts(shares, local);
    OptimalShape(shares, local);
    var all := [Share(local, DevicesOf(shares, local))] + Remaining(shares, local);
    NonEmptyMembers(all);
    if k :| 0 <= k < |Optimal(shares, local)| && Optimal(shares, local)[k].ip == ip {
      DevicesOfAt(Optimal(shares, local), k);
      assert Optimal(shares, local)[k] in all;
    } else {
      DevicesOfAbsent(Optimal(shares, local), ip);
    }
  }

  lemma NothingIsLost(shares: seq<Share>, local: Ip, ip: Ip, d: DeviceId) returns (owner: Ip)
    requires DistinctIps(shares) && Assigned(shares, ip, d)
    ensures Assigned(Optimal(shares, local), owner, d)
  {
    var localDevices := DevicesOf(shares, local);
    RemainingFacts(shares, local);
    ExclusiveMembers(shares, local, localDevices);
    AssignedIsDevicesOf(shares, local, d);
    if d in localDevices {
      owner := local;
    } else {
      var own := Exclusive(shares, local, localDevices);
      assert Assigned(own, ip, d);
      assert Offered(own, d);
      var k :| 0 <= k < |Remaining(shares, local)| && d in Remaining(shares, local)[k].devices;
      owner := Remaining(shares, local)[k].ip;
    }
    OptimalAssigned(shares, local, owner, d);
  }

  lemma OneOwner(shares: seq<Share>, local: Ip, a: Ip, b: Ip, d: DeviceId)
    requires DistinctIps(shares)
    requires Assigned(Optimal(shares, local), a, d) && Assigned(Optimal(shares, local), b, d)
    ensures a == b
  {
    RemainingFacts(shares, local);
    OptimalAssigned(shares, local, a, d);
    OptimalAssigned(shares, local, b, d);
    if a != local {
      RemoteKeepsOwn(shares, local, a, d);
    }
    if b != local {
      RemoteKeepsOwn(shares, local, b, d);
    }
  }

  /**
   The allocation is an exact partition. Every required device that some gateway hosts is
   assigned to exactly one gateway, and that gateway hosts it; nothing else is assigned; the
   local gateway keeps what it hosts; and no gateway is left with an empty list.
   */
  lemma AllocationIsExactPartition(ids: seq<DeviceId>, data: seq<HostData>, local: Ip)
    ensures var result := Optimal(HostShares(ids, data), local);
      && DistinctIps(result) && NonEmptyShares(result)
      && (forall d, ip :: d in ids && Hosts(data, ip, d) ==> exists owner :: Assigned(result, owner, d))
      && (forall d, a, b :: Assigned(result, a, d) && Assigned(result, b, d) ==> a == b)
      && (forall d, ip :: Assigned(result, ip, d) ==> d in ids && Hosts(data, ip, d))
      && (forall d :: Assigned(result, local, d) <==> d in ids && Hosts(data, local, d))
  {
    var shares := HostShares(ids, data);
    var result := Optimal(shares, local);
    HostSharesExact(ids, data);
    OptimalShape(shares, local);
    LocalKeepsAll(shares, local);
    forall d, ip | d in ids && Hosts(data, ip, d)
      ensures exists owner :: Assigned(result, owner, d)
    {
      AssignedIsDevicesOf(shares, ip, d);
      var owner := NothingIsLost(shares, local, ip, d);
    }
    forall d, a, b | Assigned(result, a, d) && Assigned(result, b, d)
      ensures a == b
    {
      OneOwner(shares, local, a, b, d);
    }
    forall d
      ensures Assigned(result, local, d) <==> d in ids && Hosts(data, local, d)
    {
      AssignedIsDevicesOf(result, local, d);
    }
    forall d, ip | Assigned(result, ip, d)
      ensures d in ids && Hosts(data, ip, d)
    {
      if ip != local {
        RemoteKeepsOwn(shares, local, ip, d);
        AssignedIsDevicesOf(shares, ip, d);
      }
    }
  }

  /** The last gateway with the most devices that the local one lacks keeps all of them. */
  lemma LastLargestKeepsAll(shares: seq<Share>, local: Ip, m: nat)
    requires DistinctIps(shares)
    requires m < |Exclusive(shares, local, DevicesOf(shares, local))|
    requires var own := Exclusive(shares, local, DevicesOf(shares, local));
      && (forall k :: 0 <= k < |own| ==> |own[k].devices| <= |own[m].devices|)
      && (forall k :: m < k < |own| ==> |own[k].devices| < |own[m].devices|)
    ensures Exclusive(shares, local, DevicesOf(shares, local))[m] in Optimal(shares, local)
  {
    var own := Exclusive(shares, local, DevicesOf(shares, local));
    ExclusiveMembers(shares, local, DevicesOf(shares, local));
    SweepKeepsLastLargest(own, 0, 1, m);
    var all := [Share(local, DevicesOf(shares, local))] + Remaining(shares, local);
    assert all[m + 1] == own[m];
    NonEmptyMembers(all);
  }

  // Stability: allocating again from the result changes nothing.

  lemma NonEmptySeparated(shares: seq<Share>)
    requires PairwiseDisjoint(shares) && AllNoDuplicates(shares)
    ensures PairwiseDisjoint(NonEmpty(shares)) && AllNoDuplicates(NonEmpty(shares))
  {
    if shares != [] {
      var front, last := shares[..|shares| - 1], shares[|shares| - 1];
      NonEmptySeparated(front);
      NonEmptyMembers(front);
      forall k | 0 <= k < |NonEmpty(front)|
        ensures Disjoint(NonEmpty(front)[k].devices, last.devices)
      {
        assert NonEmpty(front)[k] in front;
        var p :| 0 <= p < |front| && front[p] == NonEmpty(front)[k];
        assert Disjoint(shares[p].devices, last.devices);
      }
    }
  }

  lemma {:induction false} ExclusiveKeeps(shares: seq<Share>, local: Ip, localDevices: seq<DeviceId>)
    requires AllNoDuplicates(shares) && NonEmptyShares(shares) && !HasIp(shares, local)
    requires forall k :: 0 <= k < |shares| ==> Disjoint(shares[k].devices, localDevices)
    ensures Exclusive(shares, local, localDevices) == shares
  {
    if shares != [] {
      var front, last := shares[..|shares| - 1], shares[|shares| - 1];
      assert forall k :: 0 <= k < |front| ==> front[k] == shares[k];
      ExclusiveKeeps(front, local, localDevices);
      MinusNothing(last.devices, localDevices);
      assert shares[|shares| - 1].ip != local;
      assert shares == front + [last];
    }
  }

  lemma {:induction false} NonEmptyKeeps(shares: seq<Share>)
    requires NonEmptyShares(shares)
    ensures NonEmpty(shares) == shares
  {
    if shares != [] {
      NonEmptyKeeps(shares[..|shares| - 1]);
      assert shares == shares[..|shares| - 1] + [shares[|shares| - 1]];
    }
  }

  lemma {:induction false} NonEmptyAppend(a: seq<Share>, b: seq<Share>)
    ensures NonEmpty(a + b) == NonEmpty(a) + NonEmpty(b)
  {
    if b == [] {
      assert a + b == a;
    } else {
      NonEmptyAppend(a, b[..|b| - 1]);
      assert (a + b)[..|a + b| - 1] == a + b[..|b| - 1];
    }
  }

  lemma ExclusiveSkipsLocal(devices: seq<DeviceId>, rest: seq<Share>, local: Ip, localDevices: seq<DeviceId>)
    ensures Exclusive([Share(local, devices)] + rest, local, localDevices) == Exclusive(rest, local, localDevices)
  {
    var all := [Share(local, devices)] + rest;
    if rest == [] {
      assert all[..|all| - 1] == [];
    } else {
      ExclusiveSkipsLocal(devices, rest[..|rest| - 1], local, localDevices);
      assert all[..|all| - 1] == [Share(local, devices)] + rest[..|rest| - 1];
    }
  }

  lemma AllocationIsStable(shares: seq<Share>, local: Ip)
    requires DistinctIps(shares)
    ensures Optimal(Optimal(shares, local), local) == Optimal(shares, local)
  {
    var localDevices := DevicesOf(shares, local);
    var own, rest := Share(local, localDevices), Remaining(shares, local);
    var kept := NonEmpty(rest);
    RemainingFacts(shares, local);
    LocalKeepsAll(shares, local);
    NonEmptySeparated(rest);
    NonEmptyMembers(rest);
    forall k | 0 <= k < |kept|
      ensures kept[k].ip != local && Disjoint(kept[k].devices, localDevices)
    {
      assert kept[k] in rest;
      var p :| 0 <= p < |rest| && rest[p] == kept[k];
      forall d | d in kept[k].devices
        ensures d !in localDevices
      {
        assert Assigned(rest, kept[k].ip, d);
        OptimalAssigned(shares, local, kept[k].ip, d);
        RemoteKeepsOwn(shares, local, kept[k].ip, d);
      }
    }
    ExclusiveKeeps(kept, local, localDevices);
    NonEmptyAppend([own], rest);
    NonEmptyKeeps(kept);
    NonEmptyAppend([own], kept);
    ExclusiveSkipsLocal(localDevices, kept, local, localDevices);
    assert Optimal(shares, local) == NonEmpty([own]) + kept;
    assert Exclusive(Optimal(shares, local), local, localDevices) == kept by {
      if localDevices == [] {
        assert NonEmpty([own]) == [];
        assert [] + kept == kept;
      } else {
        NonEmptyKeeps([own]);
      }
    }
    SweepChangesNothing(kept, 0, 1);
  }
}
