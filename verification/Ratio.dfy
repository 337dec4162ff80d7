/** The accumulating memory-to-CPU ratio of ratio/ratio.go. */
module Ratio {
  import opened Basics
  import opened Rounding
  import opened FairUse
  import opened Workloads

  class Ratio {
    var cpu: real
    var memory: real

    /** The exact totals recorded so far. */
    ghost function Total(): Usage
      reads this
    {
      Usage(cpu, memory)
    }

    constructor ()
      ensures cpu == memory == 0.0
    {
      cpu, memory := 0.0, 0.0;
    }

    method RecordReplicatedPodSpec(replicas: int, spec: PodSpec)
      modifies this
      ensures cpu == old(cpu) + Requested(spec.containers, Cpu) * replicas as real
      ensures memory == old(memory) + Requested(spec.containers, Memory) * replicas as real
    {
      var c, m := 0.0, 0.0;
      for i := 0 to |spec.containers|
        invariant c == Requested(spec.containers[..i], Cpu) && m == Requested(spec.containers[..i], Memory)
      {
        assert spec.containers[..i + 1][..i] == spec.containers[..i];
        m := m + spec.containers[i].Request(Memory);
        c := c + spec.containers[i].Request(Cpu);
      }
      assert spec.containers[..|spec.containers|] == spec.containers;
      var rep := replicas as real;
      c := c * rep;
      cpu := cpu + c;
      m := m * rep;
      memory := memory + m;
    }

    method RecordPod(pods: seq<Pod>)
      modifies this
      ensures cpu == old(cpu) + PodsAmount(pods, Cpu) && memory == old(memory) + PodsAmount(pods, Memory)
    {
      for i := 0 to |pods|
        invariant cpu == old(cpu) + PodsAmount(pods[..i], Cpu)
        invariant memory == old(memory) + PodsAmount(pods[..i], Memory)
      {
        assert pods[..i + 1][..i] == pods[..i];
        if pods[i].phase == Running {
          RecordReplicatedPodSpec(1, pods[i].spec);
        }
      }
      assert pods[..|pods|] == pods;
    }

    /** RecordDeployment and RecordStatefulSet do the same to their kind of object. */
    method RecordReplicated(ds: seq<Replicated>)
      modifies this
      ensures cpu == old(cpu) + AllReplicatedAmount(ds, Cpu)
      ensures memory == old(memory) + AllReplicatedAmount(ds, Memory)
    {
      for i := 0 to |ds|
        invariant cpu == old(cpu) + AllReplicatedAmount(ds[..i], Cpu)
        invariant memory == old(memory) + AllReplicatedAmount(ds[..i], Memory)
      {
        assert ds[..i + 1][..i] == ds[..i];
        var replicas := 1;
        if ds[i].replicas.Some? {
          replicas := ds[i].replicas.value;
        }
        RecordReplicatedPodSpec(replicas, ds[i].template);
      }
      assert ds[..|ds|] == ds;
    }

    /** The ratio in bytes per core, rounded half-even to bytes and then up to mebibytes; absent
        when no CPU is requested. */
    method Quantity() returns (q: Option<real>)
      ensures q.Some? <==> cpu > 0.0
      ensures q.Some? ==> IsRoundedRatio(Total(), q.value)
    {
      if cpu <= 0.0 {
        return None;
      }
      var r := QuoRound(memory, cpu, RoundHalfEven);
      ghost var bytes := r;
      r := QuoRound(r as real, MIB as real, RoundUp);
      RoundedTwice(Total(), bytes, r);
      assert (r * MIB) as real == r as real * MIB as real;
      q := Some((r * MIB) as real);
    }

    /** Whether the ratio is below the limit, scaled by the optional threshold. */
    method Below(limit: real, threshold: Option<real>) returns (b: bool)
      ensures b <==> IsBelow(Total(), WarnAmount(limit, threshold))
    {
      var q := Quantity();
      if q.None? {
        return false;
      }
      q := Quantity();
      b := q.value < WarnAmount(limit, threshold);
      RoundedRatioBelow(Total(), q.value, WarnAmount(limit, threshold));
    }
  }

  /** The amount of memory per core under which a ratio is reported; the threshold is one unless
      it is configured. */
  function WarnAmount(limit: real, threshold: Option<real>): (amount: real)
    ensures amount == if threshold.Some? then limit * threshold.value else limit
  {
    limit * (if threshold.None? then 1.0 else threshold.value)
  }
}
