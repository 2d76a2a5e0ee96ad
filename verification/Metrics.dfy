/** Resource usage of a cluster, summed over its hypervisors. */
module Metrics {

  datatype Load = Load(used: nat, capacity: nat)

  datatype Hypervisor = Hypervisor(cpu: Load, ram: Load, disk: Load)

  datatype Usage = Usage(cpuPct: real, ramPct: real, diskPct: real)

  function Sum(xs: seq<nat>): nat {
    if xs == [] then 0 else Sum(xs[..|xs| - 1]) + xs[|xs| - 1]
  }

  /** The percentage of `used` in `capacity`, said without dividing; zero without capacity. */
  predicate IsPct(pct: real, used: nat, capacity: nat) {
    if capacity == 0 then pct == 0.0 else pct * capacity as real == 100.0 * used as real
  }

  /** Used over capacity in percent, before rounding. */
  function Pct(used: nat, capacity: nat): (pct: real)
    ensures IsPct(pct, used, capacity)
  {
    if capacity == 0 then 0.0
    else
      PctTimesCapacity(used as real, capacity as real);
      used as real / capacity as real * 100.0
  }

  lemma PctTimesCapacity(u: real, c: real)
    requires c > 0.0
    ensures u / c * 100.0 * c == 100.0 * u
  {
    assert u / c * c == u;
  }

  /** Each figure is the percentage of what the hypervisors use of that resource in what they have of it. */
  ghost predicate Summarises(usage: Usage, hs: seq<Hypervisor>) {
    IsPct(usage.cpuPct, Sum(seq(|hs|, i requires 0 <= i < |hs| => hs[i].cpu.used)),
          Sum(seq(|hs|, i requires 0 <= i < |hs| => hs[i].cpu.capacity))) &&
    IsPct(usage.ramPct, Sum(seq(|hs|, i requires 0 <= i < |hs| => hs[i].ram.used)),
          Sum(seq(|hs|, i requires 0 <= i < |hs| => hs[i].ram.capacity))) &&
    IsPct(usage.diskPct, Sum(seq(|hs|, i requires 0 <= i < |hs| => hs[i].disk.used)),
          Sum(seq(|hs|, i requires 0 <= i < |hs| => hs[i].disk.capacity)))
  }

  lemma SumSnoc(xs: seq<nat>, x: nat)
    ensures Sum(xs + [x]) == Sum(xs) + x
  {
    assert (xs + [x])[..|xs|] == xs;
  }

  /** One pass over the hypervisors with six running totals. */
  method ClusterMetrics(hs: seq<Hypervisor>) returns (usage: Usage)
    ensures Summarises(usage, hs)
  {
    var totalVcpus: nat, totalRam: nat, totalDisk: nat := 0, 0, 0;
    var usedVcpus: nat, usedRam: nat, usedDisk: nat := 0, 0, 0;
    ghost var cpus: seq<nat>, rams: seq<nat>, disks: seq<nat> := [], [], [];
    ghost var cpusUsed: seq<nat>, ramsUsed: seq<nat>, disksUsed: seq<nat> := [], [], [];
    var i := 0;
    while i < |hs|
      invariant 0 <= i == |cpus| == |rams| == |disks| == |cpusUsed| == |ramsUsed| == |disksUsed| <= |hs|
      invariant totalVcpus == Sum(cpus) && totalRam == Sum(rams) && totalDisk == Sum(disks)
      invariant usedVcpus == Sum(cpusUsed) && usedRam == Sum(ramsUsed) && usedDisk == Sum(disksUsed)
      invariant forall k | 0 <= k < i ::
        hs[k] == Hypervisor(Load(cpusUsed[k], cpus[k]), Load(ramsUsed[k], rams[k]), Load(disksUsed[k], disks[k]))
    {
      SumSnoc(cpus, hs[i].cpu.capacity);
      SumSnoc(rams, hs[i].ram.capacity);
      SumSnoc(disks, hs[i].disk.capacity);
      SumSnoc(cpusUsed, hs[i].cpu.used);
      SumSnoc(ramsUsed, hs[i].ram.used);
      SumSnoc(disksUsed, hs[i].disk.used);
      cpus, cpusUsed := cpus + [hs[i].cpu.capacity], cpusUsed + [hs[i].cpu.used];
      rams, ramsUsed := rams + [hs[i].ram.capacity], ramsUsed + [hs[i].ram.used];
      disks, disksUsed := disks + [hs[i].disk.capacity], disksUsed + [hs[i].disk.used];
      totalVcpus, usedVcpus := totalVcpus + hs[i].cpu.capacity, usedVcpus + hs[i].cpu.used;
      totalRam, usedRam := totalRam + hs[i].ram.capacity, usedRam + hs[i].ram.used;
      totalDisk, usedDisk := totalDisk + hs[i].disk.capacity, usedDisk + hs[i].disk.used;
      i := i + 1;
    }
    usage := Usage(Pct(usedVcpus, totalVcpus), Pct(usedRam, totalRam), Pct(usedDisk, totalDisk));
    assert seq(|hs|, i requires 0 <= i < |hs| => hs[i].cpu.used) == cpusUsed;
    assert seq(|hs|, i requires 0 <= i < |hs| => hs[i].cpu.capacity) == cpus;
    assert seq(|hs|, i requires 0 <= i < |hs| => hs[i].ram.used) == ramsUsed;
    assert seq(|hs|, i requires 0 <= i < |hs| => hs[i].ram.capacity) == rams;
    assert seq(|hs|, i requires 0 <= i < |hs| => hs[i].disk.used) == disksUsed;
    assert seq(|hs|, i requires 0 <= i < |hs| => hs[i].disk.capacity) == disks;
  }

  // ---------- the total lies between its parts ----------

  /** The percentage, undivided, lies within these bounds. */
  predicate Between(load: Load, lo: real, hi: real) {
    lo * load.capacity as real <= 100.0 * load.used as real <= hi * load.capacity as real
  }

  lemma BetweenAdd(a: Load, b: Load, lo: real, hi: real)
    requires Between(a, lo, hi) && Between(b, lo, hi)
    ensures Between(Load(a.used + b.used, a.capacity + b.capacity), lo, hi)
  {
    var c, d := a.capacity as real, b.capacity as real;
    Distribute(lo, c, d);
    Distribute(hi, c, d);
  }

  lemma Distribute(x: real, c: real, d: real)
    ensures x * (c + d) == x * c + x * d
  {
  }

  lemma {:induction false} SumBetween(used: seq<nat>, capacity: seq<nat>, lo: real, hi: real)
    requires |used| == |capacity|
    requires forall i | 0 <= i < |used| :: capacity[i] > 0 && Between(Load(used[i], capacity[i]), lo, hi)
    ensures Between(Load(Sum(used), Sum(capacity)), lo, hi) && (used != [] ==> Sum(capacity) > 0)
    decreases |used|
  {
    if used != [] {
      var n := |used| - 1;
      SumBetween(used[..n], capacity[..n], lo, hi);
      hide Between;
      BetweenAdd(Load(Sum(used[..n]), Sum(capacity[..n])), Load(used[n], capacity[n]), lo, hi);
    }
  }

  lemma BetweenPct(pct: real, load: Load, lo: real, hi: real)
    requires load.capacity > 0 && IsPct(pct, load.used, load.capacity) && Between(load, lo, hi)
    ensures lo <= pct <= hi
  {
    var c := load.capacity as real;
    if pct < lo {
      StrictScale(pct, lo, c);
    }
    if hi < pct {
      StrictScale(hi, pct, c);
    }
  }

  lemma StrictScale(a: real, b: real, c: real)
    requires a < b && c > 0.0
    ensures a * c < b * c
  {
    assert (b - a) * c > 0.0;
  }

  lemma PctBetween(pct: real, used: seq<nat>, capacity: seq<nat>, lo: real, hi: real)
    requires IsPct(pct, Sum(used), Sum(capacity)) && used != [] && |used| == |capacity|
    requires forall i | 0 <= i < |used| :: capacity[i] > 0 && Between(Load(used[i], capacity[i]), lo, hi)
    ensures lo <= pct <= hi
  {
    hide Sum, Between, IsPct;
    SumBetween(used, capacity, lo, hi);
    BetweenPct(pct, Load(Sum(used), Sum(capacity)), lo, hi);
  }

  /**
   If every hypervisor has capacity, each figure of the cluster is a mean of theirs: it lies between any bounds that
   hold for each of them, so between the least and the greatest.
   */
  lemma ClusterPctIsMean(usage: Usage, hs: seq<Hypervisor>, lo: real, hi: real)
    requires Summarises(usage, hs) && hs != []
    ensures (forall h | h in hs :: h.cpu.capacity > 0 && Between(h.cpu, lo, hi)) ==> lo <= usage.cpuPct <= hi
    ensures (forall h | h in hs :: h.ram.capacity > 0 && Between(h.ram, lo, hi)) ==> lo <= usage.ramPct <= hi
    ensures (forall h | h in hs :: h.disk.capacity > 0 && Between(h.disk, lo, hi)) ==> lo <= usage.diskPct <= hi
  {
    var n := |hs|;
    if forall h | h in hs :: h.cpu.capacity > 0 && Between(h.cpu, lo, hi) {
      PctBetween(usage.cpuPct, seq(n, i requires 0 <= i < n => hs[i].cpu.used),
                 seq(n, i requires 0 <= i < n => hs[i].cpu.capacity), lo, hi);
    }
    if forall h | h in hs :: h.ram.capacity > 0 && Between(h.ram, lo, hi) {
      PctBetween(usage.ramPct, seq(n, i requires 0 <= i < n => hs[i].ram.used),
                 seq(n, i requires 0 <= i < n => hs[i].ram.capacity), lo, hi);
    }
    if forall h | h in hs :: h.disk.capacity > 0 && Between(h.disk, lo, hi) {
      PctBetween(usage.diskPct, seq(n, i requires 0 <= i < n => hs[i].disk.used),
                 seq(n, i requires 0 <= i < n => hs[i].disk.capacity), lo, hi);
    }
  }
}
