/** The dispatcher's projection of cluster capacity and its admission check. */
module Capacity {
  import opened Common

  /** Sizes of a node and of one evaluation pod, and the autoscaling limit. */
  datatype Cluster = Cluster(nodeCpu: nat, nodeMemory: nat, podCpu: nat, podMemory: nat, maxNodes: nat)

  const SYSTEM_CPU: nat := 1475
  const SYSTEM_MEMORY: nat := 1970

  predicate Sized(c: Cluster) {
    0 < c.podCpu <= c.nodeCpu && 0 < c.podMemory <= c.nodeMemory
  }

  function PodsPerNode(c: Cluster): (n: nat)
    requires Sized(c)
    ensures n >= 1
  {
    AtLeastOne(c.nodeCpu, c.podCpu);
    AtLeastOne(c.nodeMemory, c.podMemory);
    Min(c.nodeCpu / c.podCpu, c.nodeMemory / c.podMemory)
  }

  lemma AtLeastOne(a: nat, b: nat)
    requires 0 < b <= a
    ensures a / b >= 1
  {
    QuotientBound(1, a, b);
  }

  /** `q` units of size `b` fit into `a` exactly when `q` is at most the quotient. */
  lemma QuotientBound(q: nat, a: nat, b: nat)
    requires b > 0
    ensures q * b <= a <==> q <= a / b
  {
    var d := a / b;
    assert a == d * b + a % b;
    if q <= d {
      ProductGrows(q, d, b);
    } else {
      ProductGrows(d + 1, q, b);
      OneMore(d, b);
    }
  }

  function NodesNeeded(c: Cluster, pending: nat): nat
    requires Sized(c)
  {
    var n := (pending + PodsPerNode(c) - 1) / PodsPerNode(c);
    if n > 1 then n else 1
  }

  function ProjectedNodes(c: Cluster, current: nat, pending: nat): nat
    requires Sized(c)
  {
    Min(current + NodesNeeded(c, pending), c.maxNodes)
  }

  // ----- the projection is enough, and least -----

  /** How many pods each of some nodes takes. */
  type Placement = seq<nat>

  function Placed(p: Placement): nat {
    if p == [] then 0 else p[0] + Placed(p[1..])
  }

  predicate Holds(c: Cluster, p: Placement) {
    forall i :: 0 <= i < |p| ==> p[i] * c.podCpu <= c.nodeCpu && p[i] * c.podMemory <= c.nodeMemory
  }

  /** `k` fresh nodes can hold all pending pods in CPU and in memory. */
  ghost predicate Fits(c: Cluster, pending: nat, k: nat) {
    exists p: Placement :: |p| == k && Holds(c, p) && Placed(p) == pending
  }

  lemma OneNode(c: Cluster, pods: nat)
    requires Sized(c)
    ensures pods * c.podCpu <= c.nodeCpu && pods * c.podMemory <= c.nodeMemory <==> pods <= PodsPerNode(c)
  {
    QuotientBound(pods, c.nodeCpu, c.podCpu);
    QuotientBound(pods, c.nodeMemory, c.podMemory);
  }

  lemma HoldsParts(c: Cluster, p: Placement)
    requires p != []
    ensures Holds(c, p) <==> p[0] * c.podCpu <= c.nodeCpu && p[0] * c.podMemory <= c.nodeMemory && Holds(c, p[1..])
  {
    var holds := (n: nat) => n * c.podCpu <= c.nodeCpu && n * c.podMemory <= c.nodeMemory;
    assert Holds(c, p) <==> forall i :: 0 <= i < |p| ==> holds(p[i]);
    assert Holds(c, p[1..]) <==> forall i :: 0 <= i < |p[1..]| ==> holds(p[1..][i]);
    AllParts(p, holds);
  }

  lemma AllParts(p: Placement, holds: nat -> bool)
    requires p != []
    ensures (forall i :: 0 <= i < |p| ==> holds(p[i])) <==> holds(p[0]) && forall i :: 0 <= i < |p[1..]| ==> holds(p[1..][i])
  {
    assert p == [p[0]] + p[1..];
  }

  lemma OneMore(k: nat, d: nat)
    ensures (k + 1) * d == d + k * d
  {
  }

  lemma {:induction false} PlacedAtMost(c: Cluster, p: Placement)
    requires Sized(c) && Holds(c, p)
    ensures Placed(p) <= |p| * PodsPerNode(c)
  {
    hide PodsPerNode, Sized;
    if p != [] {
      HoldsParts(c, p);
      OneNode(c, p[0]);
      PlacedAtMost(c, p[1..]);
      OneMore(|p[1..]|, PodsPerNode(c));
    }
  }

  lemma HoldsNone(c: Cluster)
    ensures Holds(c, [])
  {
  }

  lemma {:induction false} Place(c: Cluster, pending: nat, k: nat) returns (p: Placement)
    requires Sized(c) && pending <= k * PodsPerNode(c)
    ensures |p| == k && Holds(c, p) && Placed(p) == pending
    decreases k
  {
    hide PodsPerNode, Holds, Sized;
    if k == 0 {
      p := [];
      HoldsNone(c);
    } else {
      var first := Min(pending, PodsPerNode(c));
      OneMore(k - 1, PodsPerNode(c));
      var rest := Place(c, pending - first, k - 1);
      OneNode(c, first);
      p := [first] + rest;
      assert p[1..] == rest;
      HoldsParts(c, p);
    }
  }

  lemma FitsExactlyWhen(c: Cluster, pending: nat, k: nat)
    requires Sized(c)
    ensures Fits(c, pending, k) <==> pending <= k * PodsPerNode(c)
  {
    hide PodsPerNode, Holds, Placed, Sized;
    if Fits(c, pending, k) {
      var p: Placement :| |p| == k && Holds(c, p) && Placed(p) == pending;
      PlacedAtMost(c, p);
    }
    if pending <= k * PodsPerNode(c) {
      var p := Place(c, pending, k);
    }
  }

  /** The added nodes hold all pending pods, and no smaller positive number of nodes does. */
  lemma NeededIsLeast(c: Cluster, pending: nat, k: nat)
    requires Sized(c) && k >= 1
    ensures Fits(c, pending, k) <==> NodesNeeded(c, pending) <= k
  {
    var d := PodsPerNode(c);
    FitsExactlyWhen(c, pending, k);
    CeilingBound(pending, d, k);
  }

  lemma CeilingBound(a: nat, d: nat, k: nat)
    requires d >= 1
    ensures (a + d - 1) / d <= k <==> a <= k * d
  {
    QuotientBound(k + 1, a + d - 1, d);
    assert (k + 1) * d == k * d + d;
  }

  lemma NeededIsAtLeastOne(c: Cluster, pending: nat)
    requires Sized(c)
    ensures NodesNeeded(c, pending) >= 1
  {
    hide PodsPerNode;
  }

  /** More nodes or more pending pods never lower the projection. */
  lemma ProjectionIsMonotone(c: Cluster, current: nat, pending: nat, current': nat, pending': nat)
    requires Sized(c) && current <= current' && pending <= pending'
    ensures ProjectedNodes(c, current, pending) <= ProjectedNodes(c, current', pending') <= c.maxNodes
  {
    hide PodsPerNode, NodesNeeded, Fits, Sized;
    var k := NodesNeeded(c, pending');
    NeededIsAtLeastOne(c, pending');
    NeededIsLeast(c, pending', k);
    FitsExactlyWhen(c, pending', k);
    FitsExactlyWhen(c, pending, k);
    NeededIsLeast(c, pending, k);
  }

  /** Above the autoscaling limit the "projection" is fewer nodes than there are. */
  lemma ProjectionShrinksExactlyWhen(c: Cluster, current: nat, pending: nat)
    requires Sized(c)
    ensures ProjectedNodes(c, current, pending) < current <==> c.maxNodes < current
  {
  }

  // ----- admission -----

  datatype Answer = Answer(hasCapacity: bool, availableMemory: int, availableCpu: int, totalMemory: int, totalCpu: int)

  /** The larger of the two shares the system's own pods take. */
  function Utilisation(c: Cluster, current: nat): real
    requires Sized(c) && current > 0
  {
    ProductPositive(current, c.nodeCpu);
    ProductPositive(current, c.nodeMemory);
    var cpuUse := SYSTEM_CPU as real / (current * c.nodeCpu) as real;
    var memoryUse := SYSTEM_MEMORY as real / (current * c.nodeMemory) as real;
    if cpuUse >= memoryUse then cpuUse else memoryUse
  }

  function CountedNodes(c: Cluster, threshold: real, current: nat, pending: nat): nat
    requires Sized(c) && current > 0
  {
    if Utilisation(c, current) >= threshold || pending > 0 then ProjectedNodes(c, current, pending) else current
  }

  /** No ready node makes the utilisation a division by zero. */
  function CheckCapacity(c: Cluster, threshold: real, current: nat, pending: nat, memory: int, cpu: int): Option<Answer>
    requires Sized(c)
  {
    if current == 0 then None else
      var nodes := CountedNodes(c, threshold, current, pending);
      var freeCpu, freeMemory := nodes * c.nodeCpu - SYSTEM_CPU, nodes * c.nodeMemory - SYSTEM_MEMORY;
      Some(Answer(memory <= freeMemory && cpu <= freeCpu, freeMemory, freeCpu, nodes * c.nodeMemory, nodes * c.nodeCpu))
  }

  predicate Admits(c: Cluster, threshold: real, current: nat, pending: nat, memory: int, cpu: int)
    requires Sized(c)
  {
    var a := CheckCapacity(c, threshold, current, pending, memory, cpu);
    a.Some? && a.value.hasCapacity
  }

  lemma ProductPositive(a: nat, b: nat)
    requires a > 0 && b > 0
    ensures a * b > 0
  {
  }

  lemma ProductGrows(a: nat, b: nat, d: nat)
    requires a <= b
    ensures a * d <= b * d
  {
  }

  lemma AdmitsUpTo(c: Cluster, threshold: real, current: nat, pending: nat, memory: int, cpu: int)
    requires Sized(c) && current > 0
    ensures var nodes := CountedNodes(c, threshold, current, pending);
      Admits(c, threshold, current, pending, memory, cpu)
      <==> memory <= nodes * c.nodeMemory - SYSTEM_MEMORY && cpu <= nodes * c.nodeCpu - SYSTEM_CPU
  {
    hide CountedNodes;
  }

  /** With pods pending nothing larger than the capped cluster less the system's share is admitted. */
  lemma AdmittedFitsCappedCluster(c: Cluster, threshold: real, current: nat, pending: nat, memory: int, cpu: int)
    requires Sized(c) && pending > 0
    requires Admits(c, threshold, current, pending, memory, cpu)
    ensures memory <= c.maxNodes * c.nodeMemory - SYSTEM_MEMORY && cpu <= c.maxNodes * c.nodeCpu - SYSTEM_CPU
  {
    hide NodesNeeded, Utilisation;
    var nodes := ProjectedNodes(c, current, pending);
    AdmitsUpTo(c, threshold, current, pending, memory, cpu);
    ProductGrows(nodes, c.maxNodes, c.nodeMemory);
    ProductGrows(nodes, c.maxNodes, c.nodeCpu);
  }

  lemma CountedWithPending(c: Cluster, threshold: real, current: nat, pending: nat)
    requires Sized(c) && current > 0 && pending > 0
    ensures var without, with := CountedNodes(c, threshold, current, 0), CountedNodes(c, threshold, current, pending);
      without <= with <==> current <= c.maxNodes || Utilisation(c, current) >= threshold
  {
    hide NodesNeeded, Utilisation, ProjectedNodes, Sized;
    ProjectionIsMonotone(c, current, 0, current, pending);
    ProjectionShrinksExactlyWhen(c, current, pending);
  }

  lemma SharesBelowOne(c: Cluster, current: nat)
    requires Sized(c) && current > 0 && Utilisation(c, current) < 1.0
    ensures current * c.nodeMemory > SYSTEM_MEMORY && current * c.nodeCpu > SYSTEM_CPU
  {
    ProductPositive(current, c.nodeCpu);
    ProductPositive(current, c.nodeMemory);
    ShareBelowOne(SYSTEM_CPU, current * c.nodeCpu);
    ShareBelowOne(SYSTEM_MEMORY, current * c.nodeMemory);
  }

  lemma ShareBelowOne(a: nat, b: nat)
    requires b > 0 && a as real / b as real < 1.0
    ensures a < b
  {
    assert a as real == (a as real / b as real) * b as real;
  }

  /**
   Pods already waiting never cost a request its admission, exactly unless the
   cluster is below the scaling threshold and larger than the autoscaling limit.
   */
  lemma PendingPodsOnlyHelpExactlyWhen(c: Cluster, threshold: real, current: nat, pending: nat)
    requires Sized(c) && threshold <= 1.0 && current > 0 && pending > 0
    ensures (forall memory: nat, cpu: nat | Admits(c, threshold, current, 0, memory, cpu) :: Admits(c, threshold, current, pending, memory, cpu))
            <==> current <= c.maxNodes || Utilisation(c, current) >= threshold
  {
    hide Admits, Utilisation, Sized;
    var without, with := CountedNodes(c, threshold, current, 0), CountedNodes(c, threshold, current, pending);
    CountedWithPending(c, threshold, current, pending);
    if without <= with {
      ProductGrows(without, with, c.nodeMemory);
      ProductGrows(without, with, c.nodeCpu);
      forall memory: nat, cpu: nat | Admits(c, threshold, current, 0, memory, cpu) ensures Admits(c, threshold, current, pending, memory, cpu) {
        AdmitsUpTo(c, threshold, current, 0, memory, cpu);
        AdmitsUpTo(c, threshold, current, pending, memory, cpu);
      }
    } else {
      SharesBelowOne(c, current);
      var memory: nat, cpu: nat := current * c.nodeMemory - SYSTEM_MEMORY, current * c.nodeCpu - SYSTEM_CPU;
      AdmitsUpTo(c, threshold, current, 0, memory, cpu);
      AdmitsUpTo(c, threshold, current, pending, memory, cpu);
      LessProduct(with, without, c);
    }
  }

  lemma LessProduct(a: nat, b: nat, c: Cluster)
    requires Sized(c) && a < b
    ensures a * c.nodeMemory < b * c.nodeMemory
  {
    ProductPositive(b - a, c.nodeMemory);
  }

  // ----- what is reported -----

  /** The counted nodes: the present ones, or at most the limit, the present and the needed ones. */
  lemma NodesAreCounted(c: Cluster, threshold: real, current: nat, pending: nat)
    requires Sized(c) && current > 0
    ensures var nodes := CountedNodes(c, threshold, current, pending);
      if pending == 0 && Utilisation(c, current) < threshold then nodes == current
      else nodes == Min(current + NodesNeeded(c, pending), c.maxNodes)
  {
    hide Utilisation, NodesNeeded;
  }

  /** The utilisation reaches a threshold exactly if the system's share of CPU or of memory does. */
  lemma UtilisationReaches(c: Cluster, current: nat, threshold: real)
    requires Sized(c) && current > 0
    ensures Utilisation(c, current) >= threshold
       <==> || 1475.0 >= threshold * (current * c.nodeCpu) as real
            || 1970.0 >= threshold * (current * c.nodeMemory) as real
  {
    ProductPositive(current, c.nodeCpu);
    ProductPositive(current, c.nodeMemory);
    QuotientReaches(1475.0, (current * c.nodeCpu) as real, threshold);
    QuotientReaches(1970.0, (current * c.nodeMemory) as real, threshold);
  }

  lemma QuotientReaches(a: real, b: real, t: real)
    requires b > 0.0
    ensures a / b >= t <==> a >= t * b
  {
    var q := a / b;
    assert q * b == a;
    if q >= t { ProductOrder(t, q, b); } else { ProductOrderStrict(q, t, b); }
  }

  lemma ProductOrder(x: real, y: real, b: real)
    requires x <= y && b > 0.0
    ensures x * b <= y * b
  {
  }

  lemma ProductOrderStrict(x: real, y: real, b: real)
    requires x < y && b > 0.0
    ensures x * b < y * b
  {
  }

  /** The four sizes reported, each from its own resource, and the answer that follows from them. */
  lemma CheckedSizes(c: Cluster, threshold: real, current: nat, pending: nat, memory: int, cpu: int)
    requires Sized(c)
    ensures CheckCapacity(c, threshold, current, pending, memory, cpu) == None <==> current == 0
    ensures current > 0 ==>
      var nodes, a := CountedNodes(c, threshold, current, pending), CheckCapacity(c, threshold, current, pending, memory, cpu).value;
      && a.totalMemory == nodes * c.nodeMemory && a.availableMemory == a.totalMemory - 1970
      && a.totalCpu == nodes * c.nodeCpu && a.availableCpu == a.totalCpu - 1475
      && (a.hasCapacity <==> memory <= a.availableMemory && cpu <= a.availableCpu)
  {
    hide CountedNodes;
  }
}
