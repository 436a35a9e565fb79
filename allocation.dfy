/** Greedy yard allocation: each vessel's containers are split into clusters of
    at most slots-per-block * containers-per-slot containers, and every cluster
    gets a yard block that no earlier cluster of the run has used. */
module Allocation {
  import YardLayout

  /** An input row: vessel name, container count and an ETA that is copied through. */
  datatype Vessel<Eta> = Vessel(name: string, containers: int, eta: Eta)

  /** An output row: one cluster of a vessel placed in one block. */
  datatype Record<Eta> = Record(vessel: string, block: string, cluster: int, containers: int, eta: Eta)

  /** An output row before its block is chosen. */
  datatype Cluster<Eta> = Cluster(vessel: string, number: int, containers: int, eta: Eta)

  /** The exceptions the allocator can raise: division by a zero cluster size, and a
      random choice from an empty list of available blocks. */
  datatype AllocError = ZeroClusterSize | NoBlockAvailable

  datatype Result<T> = Success(value: T) | Failure(error: AllocError)

  function ClusterOf<Eta>(r: Record<Eta>): Cluster<Eta>
  {
    Cluster(r.vessel, r.cluster, r.containers, r.eta)
  }

  /** Python's `min` of two integers. */
  function Min(a: int, b: int): (m: int)
    ensures m <= a && m <= b
    ensures m == a || m == b
  {
    if a <= b then a else b
  }

  /** Python's floor division `a // b`. */
  function FloorDiv(a: int, b: int): (q: int)
    requires b != 0
    ensures b > 0 ==> q * b <= a < q * b + b
    ensures b < 0 ==> q * b >= a > q * b + b
  {
    if b > 0 || a % b == 0 then a / b else a / b - 1
  }

  /** The cluster count `-(-total // size)`: the ceiling of total / size. */
  function NumClusters(total: int, size: int): (n: int)
    requires size != 0
    ensures size > 0 ==> (n - 1) * size < total <= n * size
    ensures size < 0 ==> n * size <= total < (n - 1) * size
  {
    -FloorDiv(-total, size)
  }

  /** How many times `for _ in range(n)` runs. */
  function RangeLength(n: int): nat
  {
    if n < 0 then 0 else n
  }

  /** The clusters numbered first, first + 1, ... that the inner loop produces
      from `left` remaining containers in `count` iterations. */
  function Clusters<Eta>(name: string, eta: Eta, left: int, size: int, first: int, count: nat): (r: seq<Cluster<Eta>>)
    ensures |r| == count
    decreases count
  {
    if count == 0 then []
    else
      var here := Min(left, size);
      [Cluster(name, first, here, eta)] + Clusters(name, eta, left - here, size, first + 1, count - 1)
  }

  /** containers_left after k iterations of the inner loop, starting from `left`. */
  function LeftAfter(left: int, size: int, k: nat): (r: int)
    ensures 0 < size && 0 <= left ==> 0 <= r <= left
  {
    if k == 0 then left
    else
      var before := LeftAfter(left, size, k - 1);
      before - Min(before, size)
  }

  /** The clusters of one vessel. */
  function VesselPlan<Eta>(v: Vessel<Eta>, size: int): seq<Cluster<Eta>>
    requires size != 0
  {
    Clusters(v.name, v.eta, v.containers, size, 1, RangeLength(NumClusters(v.containers, size)))
  }

  /** The clusters of all vessels, vessel after vessel. */
  function Plan<Eta>(vessels: seq<Vessel<Eta>>, size: int): seq<Cluster<Eta>>
    requires size != 0 || vessels == []
  {
    if vessels == [] then []
    else Plan(vessels[..|vessels| - 1], size) + VesselPlan(vessels[|vessels| - 1], size)
  }

  /** The number of clusters the whole run needs. */
  function TotalClusters<Eta>(vessels: seq<Vessel<Eta>>, size: int): nat
    requires size != 0 || vessels == []
  {
    if vessels == [] then 0
    else TotalClusters(vessels[1..], size) + RangeLength(NumClusters(vessels[0].containers, size))
  }

  function TotalContainers<Eta>(vessels: seq<Vessel<Eta>>): int
  {
    if vessels == [] then 0 else vessels[0].containers + TotalContainers(vessels[1..])
  }

  function Sum<Eta>(cs: seq<Cluster<Eta>>): int
  {
    if cs == [] then 0 else cs[0].containers + Sum(cs[1..])
  }

  function ToSet<T>(s: seq<T>): set<T>
  {
    set x | x in s
  }

  /** The blocks of `yard` not yet used, in yard order. */
  function Available(yard: seq<string>, used: set<string>): (r: seq<string>)
    ensures forall b :: b in r <==> b in yard && b !in used
  {
    if yard == [] then []
    else if yard[0] in used then Available(yard[1..], used)
    else [yard[0]] + Available(yard[1..], used)
  }

  // ----- Properties of the plan -----

  /** Every cluster carries its vessel's name and ETA, and clusters are numbered
      consecutively from `first`. */
  lemma {:induction false} ClustersFields<Eta>(name: string, eta: Eta, left: int, size: int, first: int, count: nat)
    ensures forall k :: 0 <= k < count ==>
      var c := Clusters(name, eta, left, size, first, count)[k];
      c.vessel == name && c.eta == eta && c.number == first + k
    decreases count
  {
    if count > 0 {
      ClustersFields(name, eta, left - Min(left, size), size, first + 1, count - 1);
    }
  }

  /** With `left` between (count - 1) * size (exclusive) and count * size, the
      first cluster is full unless it is the only one, and what remains after it
      lies in the same band for one cluster fewer. */
  lemma FirstCluster(left: int, size: int, count: nat)
    requires size > 0 && 0 < count
    requires (count - 1) * size < left <= count * size
    ensures Min(left, size) == if count > 1 then size else left
    ensures 0 <= left - Min(left, size)
    ensures (count - 2) * size < left - Min(left, size) <= (count - 1) * size
  {
    // Min(left, size) is size exactly when left > size, which the band gives for count > 1.
  }

  /** Nothing is lost: the clusters together hold the `left` containers. */
  lemma {:induction false} ClustersSum<Eta>(name: string, eta: Eta, left: int, size: int, first: int, count: nat)
    requires size > 0
    requires 0 <= left && (count - 1) * size < left <= count * size
    ensures Sum(Clusters(name, eta, left, size, first, count)) == left
    decreases count
  {
    if count > 0 {
      var here := Min(left, size);
      var cs := Clusters(name, eta, left, size, first, count);
      FirstCluster(left, size, count);
      ClustersSum(name, eta, left - here, size, first + 1, count - 1);
      assert cs[1..] == Clusters(name, eta, left - here, size, first + 1, count - 1);
    }
  }

  /** Every cluster but the last is full and the last takes the rest. */
  lemma {:induction false} ClustersSizes<Eta>(name: string, eta: Eta, left: int, size: int, first: int, count: nat)
    requires size > 0
    requires 0 <= left && (count - 1) * size < left <= count * size
    ensures forall k :: 0 <= k < count ==>
      Clusters(name, eta, left, size, first, count)[k].containers
        == if k < count - 1 then size else left - (count - 1) * size
    decreases count
  {
    if count > 0 {
      var here := Min(left, size);
      var cs := Clusters(name, eta, left, size, first, count);
      var rest := Clusters(name, eta, left - here, size, first + 1, count - 1);
      FirstCluster(left, size, count);
      ClustersSizes(name, eta, left - here, size, first + 1, count - 1);
      MulStep(count - 1, size);
      forall k | 1 <= k < count
        ensures cs[k].containers == if k < count - 1 then size else left - (count - 1) * size
      {
        assert cs[k] == rest[k - 1];
      }
    }
  }

  /** containers_left counts down by whole clusters, never goes negative and is 0
      once all clusters are made. */
  lemma {:induction false} LeftAfterDrains(left: int, size: int, count: nat, k: nat)
    requires size > 0
    requires 0 <= left && (count - 1) * size < left <= count * size
    requires k <= count
    ensures LeftAfter(left, size, k) == if k < count then left - k * size else 0
    ensures 0 <= LeftAfter(left, size, k)
    decreases k
  {
    if k == 0 {
      if count == 0 {
        assert left <= 0 * size;
      }
    } else {
      LeftAfterDrains(left, size, count, k - 1);
      var before := left - (k - 1) * size;
      MulStep(k, size);
      MulSub(count - 1, k - 1, size);
      if k < count {
        MulStep(count - k, size);
        MulNonNegative(count - k - 1, size);
        assert size <= before;
      } else {
        MulStep(count, size);
        assert before <= size;
      }
    }
  }

  lemma MulSub(a: int, b: int, w: int)
    ensures a * w - b * w == (a - b) * w
  {
  }

  lemma MulStep(n: int, w: int)
    ensures n * w == (n - 1) * w + w
  {
  }

  lemma MulNegative(n: int, w: int)
    requires 0 < w
    ensures n < 0 ==> n * w < 0
  {
  }

  lemma MulNonNegative(n: nat, w: nat)
    ensures 0 <= n * w
  {
  }

  /** One vessel gets ceil(total / size) clusters, numbered 1 upwards, each with the
      vessel's name and ETA; all but the last hold exactly `size` containers, the
      last holds what is left, and together they hold the vessel's total. */
  lemma VesselPlanSpec<Eta>(v: Vessel<Eta>, size: int)
    requires size > 0 && v.containers >= 0
    ensures var n := NumClusters(v.containers, size);
      |VesselPlan(v, size)| == n &&
      (n - 1) * size < v.containers <= n * size &&
      Sum(VesselPlan(v, size)) == v.containers &&
      forall k :: 0 <= k < n ==>
        var c := VesselPlan(v, size)[k];
        c.vessel == v.name && c.eta == v.eta && c.number == k + 1 &&
        0 < c.containers <= size &&
        c.containers == if k < n - 1 then size else v.containers - (n - 1) * size
  {
    var n := NumClusters(v.containers, size);
    assert 0 <= n by {
      MulNegative(n, size);
    }
    ClustersFields(v.name, v.eta, v.containers, size, 1, n);
    ClustersSum(v.name, v.eta, v.containers, size, 1, n);
    ClustersSizes(v.name, v.eta, v.containers, size, 1, n);
  }

  /** The plan of a concatenation is the concatenation of the plans: records come out
      in input-vessel order. */
  lemma {:induction false} PlanAppend<Eta>(a: seq<Vessel<Eta>>, b: seq<Vessel<Eta>>, size: int)
    requires size != 0
    ensures Plan(a + b, size) == Plan(a, size) + Plan(b, size)
    decreases |b|
  {
    if b != [] {
      var last := b[|b| - 1];
      assert (a + b)[..|a + b| - 1] == a + b[..|b| - 1];
      PlanAppend(a, b[..|b| - 1], size);
    } else {
      assert a + b == a;
    }
  }

  /** The plan holds as many clusters as the per-vessel cluster counts add up to. */
  lemma {:induction false} PlanLength<Eta>(vessels: seq<Vessel<Eta>>, size: int)
    requires size != 0 || vessels == []
    ensures |Plan(vessels, size)| == TotalClusters(vessels, size)
    decreases |vessels|
  {
    if vessels != [] {
      PlanLength(vessels[1..], size);
      PlanAppend([vessels[0]], vessels[1..], size);
      assert [vessels[0]] + vessels[1..] == vessels;
      assert Plan([vessels[0]], size) == VesselPlan(vessels[0], size) by {
        assert [vessels[0]][..0] == [];
      }
    }
  }

  lemma {:induction false} SumAppend<Eta>(a: seq<Cluster<Eta>>, b: seq<Cluster<Eta>>)
    ensures Sum(a + b) == Sum(a) + Sum(b)
    decreases |a|
  {
    if a != [] {
      assert (a + b)[1..] == a[1..] + b;
      SumAppend(a[1..], b);
    } else {
      assert a + b == b;
    }
  }

  /** Conservation: the clusters of the whole run hold exactly the vessels' containers. */
  lemma {:induction false} PlanConservation<Eta>(vessels: seq<Vessel<Eta>>, size: int)
    requires size > 0
    requires forall i :: 0 <= i < |vessels| ==> vessels[i].containers >= 0
    ensures Sum(Plan(vessels, size)) == TotalContainers(vessels)
    decreases |vessels|
  {
    if vessels != [] {
      PlanConservation(vessels[1..], size);
      VesselPlanSpec(vessels[0], size);
      PlanAppend([vessels[0]], vessels[1..], size);
      assert [vessels[0]] + vessels[1..] == vessels;
      assert Plan([vessels[0]], size) == VesselPlan(vessels[0], size) by {
        assert [vessels[0]][..0] == [];
      }
      SumAppend(VesselPlan(vessels[0], size), Plan(vessels[1..], size));
    }
  }

  /** Every record of the whole run holds at least one and at most cluster_size
      containers. */
  lemma {:induction false} PlanBound<Eta>(vessels: seq<Vessel<Eta>>, size: int)
    requires size > 0
    requires forall i :: 0 <= i < |vessels| ==> vessels[i].containers >= 0
    ensures forall i :: 0 <= i < |Plan(vessels, size)| ==> 0 < Plan(vessels, size)[i].containers <= size
    decreases |vessels|
  {
    if vessels != [] {
      var init, last := vessels[..|vessels| - 1], vessels[|vessels| - 1];
      PlanBound(init, size);
      VesselPlanSpec(last, size);
      var p: seq<Cluster<Eta>>, q: seq<Cluster<Eta>> := Plan(init, size), VesselPlan(last, size);
      forall i | 0 <= i < |p + q|
        ensures 0 < (p + q)[i].containers <= size
      {
        if i >= |p| {
          assert (p + q)[i] == q[i - |p|];
        }
      }
    }
  }

  /** A vessel with no containers, or a negative count, gets no clusters at all:
      `range(num_clusters)` is empty, so its count does not reach the output. */
  lemma EmptyVesselPlan<Eta>(v: Vessel<Eta>, size: int)
    requires size > 0 && v.containers <= 0
    ensures VesselPlan(v, size) == []
  {
    // NumClusters' ceiling bound (n - 1) * size < v.containers <= 0 forces n <= 0.
  }

  /** With a negative cluster size the signs flip: a vessel with a non-negative
      count gets no clusters, and one with a negative count gets at least one. */
  lemma NegativeSizeVesselPlan<Eta>(v: Vessel<Eta>, size: int)
    requires size < 0
    ensures v.containers >= 0 ==> VesselPlan(v, size) == []
    ensures v.containers < 0 ==> |VesselPlan(v, size)| > 0
  {
  }

  // ----- Sets of blocks -----

  lemma {:induction false} SubsetCardinality<T>(a: set<T>, b: set<T>)
    requires a <= b
    ensures |a| <= |b|
    decreases |b|
  {
    if a != {} {
      var x :| x in a;
      SubsetCardinality(a - {x}, b - {x});
    }
  }

  /** A list without repeated names has as many distinct names as entries. */
  lemma {:induction false} DistinctCardinality<T>(s: seq<T>)
    requires forall i, j :: 0 <= i < j < |s| ==> s[i] != s[j]
    ensures |ToSet(s)| == |s|
    decreases |s|
  {
    if s != [] {
      DistinctCardinality(s[1..]);
      assert ToSet(s) == {s[0]} + ToSet(s[1..]);
      assert s[0] !in ToSet(s[1..]);
    }
  }

  // ----- The allocator -----

  /** The block bookkeeping of allocate_yard: the records' blocks are pairwise
      distinct, each is in `used`, `used` holds one yard block per record. */
  ghost predicate BlocksFresh<Eta>(allocation: seq<Record<Eta>>, used: set<string>, yard: seq<string>)
  {
    (forall i :: 0 <= i < |allocation| ==> allocation[i].block in used) &&
    (forall i, j :: 0 <= i < j < |allocation| ==> allocation[i].block != allocation[j].block) &&
    used <= ToSet(yard) &&
    |used| == |allocation|
  }

  /** Adding a record whose block is an available yard block keeps the bookkeeping. */
  lemma ChooseBlock<Eta>(allocation: seq<Record<Eta>>, used: set<string>, yard: seq<string>, rec: Record<Eta>)
    requires BlocksFresh(allocation, used, yard)
    requires rec.block in yard && rec.block !in used
    ensures BlocksFresh(allocation + [rec], used + {rec.block}, yard)
  {
  }

  /** The records so far agree with the first clusters of `target`. */
  ghost predicate Follows<Eta>(allocation: seq<Record<Eta>>, target: seq<Cluster<Eta>>)
  {
    |allocation| <= |target| &&
    forall i :: 0 <= i < |allocation| ==> ClusterOf(allocation[i]) == target[i]
  }

  /** Records that follow `p` in full, extended by records that follow `q` in
      full, follow `p + q`. */
  lemma FollowsAppend<Eta>(before: seq<Record<Eta>>, after: seq<Record<Eta>>, p: seq<Cluster<Eta>>, q: seq<Cluster<Eta>>)
    requires Follows(before, p) && |before| == |p|
    requires |after| == |before| + |q| && after[..|before|] == before
    requires forall k :: 0 <= k < |q| ==> ClusterOf(after[|before| + k]) == q[k]
    ensures Follows(after, p + q) && |after| == |p + q|
  {
    forall i | 0 <= i < |after|
      ensures ClusterOf(after[i]) == (p + q)[i]
    {
      if i < |before| {
        assert after[i] == after[..|before|][i];
      } else {
        assert after[|before| + (i - |before|)] == after[i];
      }
    }
  }

  /** The plan of the first v + 1 vessels extends that of the first v by vessel v. */
  lemma PlanSnoc<Eta>(vessels: seq<Vessel<Eta>>, v: nat, size: int)
    requires size != 0 && v < |vessels|
    ensures Plan(vessels[..v + 1], size) == Plan(vessels[..v], size) + VesselPlan(vessels[v], size)
  {
    assert vessels[..v + 1][..v] == vessels[..v];
  }

  /** The next cluster of the inner loop, and the clusters still to come after it. */
  lemma NextCluster<Eta>(target: seq<Cluster<Eta>>, k: nat, name: string, eta: Eta, left: int, size: int, first: int, count: nat)
    requires 0 < count && k <= |target|
    requires target[k..] == Clusters(name, eta, left, size, first, count)
    ensures k < |target| && target[k] == Cluster(name, first, Min(left, size), eta)
    ensures target[k + 1..] == Clusters(name, eta, left - Min(left, size), size, first + 1, count - 1)
  {
    assert target[k + 1..] == target[k..][1..];
  }

  /** When the clusters of vessel v cannot all be placed, the run needs more
      clusters than the yard has distinct blocks. */
  lemma OutOfBlocks<Eta>(vessels: seq<Vessel<Eta>>, v: nat, size: int, yardBlocks: nat)
    requires size != 0 && v < |vessels|
    requires yardBlocks < |Plan(vessels[..v], size)| + |VesselPlan(vessels[v], size)|
    ensures TotalClusters(vessels, size) > yardBlocks
  {
    PlanSnoc(vessels, v, size);
    PlanAppend(vessels[..v + 1], vessels[v + 1..], size);
    assert vessels[..v + 1] + vessels[v + 1..] == vessels;
    PlanLength(vessels, size);
  }

  /** The inner loop of allocate_yard for one vessel: clusters 1 .. num_clusters,
      each taking min(containers_left, cluster_size) containers and a block of
      `yard` not yet in `usedBlocks`. `ok` is false when no block is left to choose
      from; the records and blocks it returns are then those placed before that. */
  method PlaceClusters<Eta>(vessel: Vessel<Eta>, clusterSize: int, yard: seq<string>,
                            allocation0: seq<Record<Eta>>, used0: set<string>)
    returns (ok: bool, allocation: seq<Record<Eta>>, usedBlocks: set<string>)
    requires clusterSize != 0
    requires BlocksFresh(allocation0, used0, yard)
    ensures BlocksFresh(allocation, usedBlocks, yard)
    ensures |allocation0| <= |allocation| && allocation[..|allocation0|] == allocation0
    ensures ok ==> |allocation| == |allocation0| + |VesselPlan(vessel, clusterSize)|
    ensures ok ==> forall k :: 0 <= k < |VesselPlan(vessel, clusterSize)| ==>
      ClusterOf(allocation[|allocation0| + k]) == VesselPlan(vessel, clusterSize)[k]
    ensures !ok ==> |ToSet(yard)| < |allocation0| + |VesselPlan(vessel, clusterSize)|
  {
    var name := vessel.name;
    var eta := vessel.eta;
    var numClusters := NumClusters(vessel.containers, clusterSize);
    var containersLeft := vessel.containers;
    allocation, usedBlocks := allocation0, used0;

    ghost var plan := VesselPlan(vessel, clusterSize);
    ghost var n := RangeLength(numClusters);
    var cluster := 0;
    while cluster < numClusters
      invariant 0 <= cluster <= n
      invariant |allocation| == |allocation0| + cluster
      invariant allocation[..|allocation0|] == allocation0
      invariant forall k :: 0 <= k < cluster ==> ClusterOf(allocation[|allocation0| + k]) == plan[k]
      invariant plan[cluster..] == Clusters(name, eta, containersLeft, clusterSize, cluster + 1, n - cluster)
      invariant containersLeft == LeftAfter(vessel.containers, clusterSize, cluster)
      invariant BlocksFresh(allocation, usedBlocks, yard)
    {
      var availableBlocks := Available(yard, usedBlocks);
      if availableBlocks == [] {
        assert ToSet(yard) == usedBlocks;
        return false, allocation, usedBlocks;
      }
      assert availableBlocks[0] in availableBlocks;
      var chosenBlock :| chosenBlock in availableBlocks;

      var containersInCluster := Min(containersLeft, clusterSize);
      var rec := Record(name, chosenBlock, cluster + 1, containersInCluster, eta);
      NextCluster(plan, cluster, name, eta, containersLeft, clusterSize, cluster + 1, n - cluster);
      ChooseBlock(allocation, usedBlocks, yard, rec);
      allocation := allocation + [rec];
      containersLeft := containersLeft - containersInCluster;
      usedBlocks := usedBlocks + {chosenBlock};
      cluster := cluster + 1;
    }
    return true, allocation, usedBlocks;
  }

  /** allocate_yard. The block of each cluster is any block of `yard` not used by an
      earlier cluster of the run (allocate_yard picks one with random.choice). */
  method AllocateYard<Eta>(vessels: seq<Vessel<Eta>>, yard: seq<string>, slotsPerBlock: int, containersPerSlot: int)
    returns (r: Result<seq<Record<Eta>>>)
    ensures var size := slotsPerBlock * containersPerSlot;
      r.Success? <==> vessels == [] || (size != 0 && TotalClusters(vessels, size) <= |ToSet(yard)|)
    ensures r.Failure? ==>
      r.error == if slotsPerBlock * containersPerSlot == 0 then ZeroClusterSize else NoBlockAvailable
    ensures r.Success? ==>
      var size := slotsPerBlock * containersPerSlot;
      var a := r.value;
      |a| == |Plan(vessels, size)| &&
      (forall i :: 0 <= i < |a| ==> ClusterOf(a[i]) == Plan(vessels, size)[i]) &&
      (forall i :: 0 <= i < |a| ==> a[i].block in yard) &&
      (forall i, j :: 0 <= i < j < |a| ==> a[i].block != a[j].block)
  {
    ghost var size := slotsPerBlock * containersPerSlot;
    var allocation: seq<Record<Eta>> := [];
    var usedBlocks: set<string> := {};
    var v := 0;
    while v < |vessels|
      invariant 0 <= v <= |vessels|
      invariant 0 < v ==> size != 0
      invariant |allocation| == |Plan(vessels[..v], size)|
      invariant Follows(allocation, Plan(vessels[..v], size))
      invariant BlocksFresh(allocation, usedBlocks, yard)
    {
      var clusterSize := slotsPerBlock * containersPerSlot;
      if clusterSize == 0 {
        return Failure(ZeroClusterSize);
      }
      PlanSnoc(vessels, v, size);
      var ok;
      ghost var before := allocation;
      ok, allocation, usedBlocks := PlaceClusters(vessels[v], clusterSize, yard, allocation, usedBlocks);
      if !ok {
        OutOfBlocks(vessels, v, size, |ToSet(yard)|);
        return Failure(NoBlockAvailable);
      }
      FollowsAppend(before, allocation, Plan(vessels[..v], size), VesselPlan(vessels[v], size));
      v := v + 1;
    }
    assert vessels[..v] == vessels;
    PlanLength(vessels, size);
    SubsetCardinality(usedBlocks, ToSet(yard));
    return Success(allocation);
  }

  /** The yard's own block list names 15 distinct blocks, so by AllocateYard's contract a
      run over it completes exactly when the vessels need at most 15 clusters in all. */
  lemma YardBlockCapacity()
    ensures |ToSet(YardLayout.YardBlocks())| == 15
  {
    YardLayout.YardBlocksLayout();
    YardLayout.YardBlocksDistinct();
    DistinctCardinality(YardLayout.YardBlocks());
  }
}
