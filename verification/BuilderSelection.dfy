/** Choosing an instance of a cluster's pool. */
module BuilderSelection {
  import opened Wrappers
  import opened InstanceHealth
  import opened InstancePool

  class Cluster {
    const pool: Store

    constructor (pool: Store)
      ensures this.pool == pool
    {
      this.pool := pool;
    }

    /** The instance on a node, as long as it builds templates and is not unhealthy. */
    method GetTemplateBuilderByNodeID(nodeID: string) returns (r: Option<Instance>)
      ensures r.Some? <==> && nodeID in pool.instances && pool.instances[nodeID].isBuilder
                           && pool.instances[nodeID].status != Unhealthy
      ensures r.Some? ==> r.value == pool.instances[nodeID]
    {
      if nodeID !in pool.instances { return None; }
      var instance := pool.instances[nodeID];
      var info := instance.GetInfo();
      if info.status == Unhealthy || !info.isBuilder { return None; }
      return Some(instance);
    }

    /** Any instance of the pool whose info matches, and none only if none matches. */
    method GetRandomInstance(isMatch: Info -> bool) returns (r: Option<Instance>)
      requires pool.Valid()
      ensures r.Some? <==> exists n :: n in pool.instances && isMatch(pool.instances[n].View())
      ensures r.Some? ==> r.value in pool.instances.Values && isMatch(r.value.View())
    {
      var list := pool.PoolList();
      var a := new Instance[|list|](i requires 0 <= i < |list| => list[i]);
      assert a[..] == list;
      Shuffle(a);
      ghost var shuffled := a[..];
      ListedOrNot(list, shuffled, pool.instances);
      for i := 0 to a.Length
        invariant a[..] == shuffled
        invariant forall j :: 0 <= j < i ==> !isMatch(a[j].View())
      {
        var info := a[i].GetInfo();
        if isMatch(info) {
          ghost var n :| n in pool.instances && pool.instances[n] == shuffled[i];
          assert isMatch(pool.instances[n].View());
          return Some(a[i]);
        }
      }
      assert forall n :: n in pool.instances ==> pool.instances[n] in shuffled;
      return None;
    }

    /** A healthy builder, compatible with the expected machine if one is given. */
    method GetAvailableTemplateBuilder(expected: Machine) returns (r: Option<Instance>)
      requires pool.Valid()
      ensures r.Some? <==> exists n :: n in pool.instances && AvailableBuilder(pool.instances[n].View(), expected)
      ensures r.Some? ==> r.value in pool.instances.Values && AvailableBuilder(r.value.View(), expected)
    {
      r := GetRandomInstance(i => AvailableBuilder(i, expected));
    }

    /** All orchestrators of the pool, each once. */
    method GetOrchestrators() returns (list: seq<Instance>)
      requires pool.Valid()
      ensures forall i, j :: 0 <= i < j < |list| ==> list[i] != list[j]
      ensures forall i :: 0 <= i < |list| ==> list[i] in pool.instances.Values && list[i].isOrchestrator
      ensures forall n :: n in pool.instances && pool.instances[n].isOrchestrator ==> pool.instances[n] in list
    {
      list := [];
      var all := pool.PoolList();
      for i := 0 to |all|
        invariant forall p :: p in list ==> p in all[..i]
        invariant forall j, k :: 0 <= j < k < |list| ==> list[j] != list[k]
        invariant forall j :: 0 <= j < |list| ==> list[j] in pool.instances.Values && list[j].isOrchestrator
        invariant forall j :: 0 <= j < i && all[j].isOrchestrator ==> all[j] in list
      {
        var info := all[i].GetInfo();
        assert all[i] !in all[..i];
        if info.isOrchestrator { list := list + [all[i]]; }
      }
    }
  }

  /** Shuffles in place: swaps each position, from the last down, with any position up to it. */
  method Shuffle(a: array<Instance>)
    modifies a
    ensures multiset(a[..]) == multiset(old(a[..]))
  {
    var i := a.Length;
    while i > 1
      invariant 0 <= i <= a.Length
      invariant multiset(a[..]) == multiset(old(a[..]))
    {
      var j :| 0 <= j < i;
      i := i - 1;
      a[i], a[j] := a[j], a[i];
    }
  }

  /** A permutation of the pool's list has the instances of the pool and no others. */
  lemma ListedOrNot(list: seq<Instance>, shuffled: seq<Instance>, instances: map<string, Instance>)
    requires Lists(list, instances) && multiset(shuffled) == multiset(list)
    ensures forall i :: 0 <= i < |shuffled| ==> shuffled[i] in instances.Values
    ensures forall n :: n in instances ==> instances[n] in shuffled
  {
    forall i | 0 <= i < |shuffled|
      ensures shuffled[i] in instances.Values
    {
      assert shuffled[i] in multiset(list);
    }
    forall n | n in instances
      ensures instances[n] in shuffled
    {
      assert instances[n] in multiset(list);
    }
  }
}
