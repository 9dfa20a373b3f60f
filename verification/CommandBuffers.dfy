/**
 The command-buffer index of the api_dump layer: a map from (device, pool) to the buffers of the pool and a map
 from buffer to level, which must agree. The class is proved against one simple map from buffer to device, pool
 and level; the asserts of the source are asserts here. The main result: on every trace of calls that obeys
 Vulkan's handle rules none of the asserts fires and every lookup agrees with the simple map.
 */
module CommandBuffers {

  type Handle = nat

  const NULL_HANDLE: Handle := 0

  datatype Level = Primary | Secondary

  datatype Entry = Entry(device: Handle, pool: Handle, level: Level)

  type Simple = map<Handle, Entry>

  datatype Op =
    | Allocate(device: Handle, pool: Handle, buffers: seq<Handle>, level: Level)
    | Free(device: Handle, pool: Handle, buffers: seq<Handle>)
    | DestroyPool(device: Handle, pool: Handle)

  // ---------- The simple map ----------

  /** Vulkan's rules: new handles are non-null, new and different; a free names null or the pool's, none twice. */
  predicate Allowed(m: Simple, op: Op) {
    match op
    case Allocate(_, pool, buffers, _) =>
      && (forall i :: 0 <= i < |buffers| ==> buffers[i] != NULL_HANDLE && buffers[i] !in m)
      && forall i, j :: 0 <= i < j < |buffers| ==> buffers[i] != buffers[j]
    case Free(device, pool, buffers) =>
      && (forall i :: 0 <= i < |buffers| && buffers[i] != NULL_HANDLE ==>
            buffers[i] in m && m[buffers[i]].device == device && m[buffers[i]].pool == pool)
      && forall i, j :: 0 <= i < j < |buffers| && buffers[i] != NULL_HANDLE ==> buffers[i] != buffers[j]
    case DestroyPool(_, _) => true
  }

  function AsSet(buffers: seq<Handle>): set<Handle> {
    set b | b in buffers
  }

  function Apply(m: Simple, op: Op): Simple {
    match op
    case Allocate(device, pool, buffers, level) => m + map b | b in buffers :: Entry(device, pool, level)
    case Free(_, _, buffers) => m - AsSet(buffers)
    case DestroyPool(device, pool) =>
      if pool == NULL_HANDLE then m else map b | b in m && (m[b].device != device || m[b].pool != pool) :: m[b]
  }

  function ApplyAll(m: Simple, ops: seq<Op>): Simple
    decreases |ops|
  {
    if ops == [] then m else ApplyAll(Apply(m, ops[0]), ops[1..])
  }

  predicate AllAllowed(m: Simple, ops: seq<Op>)
    decreases |ops|
  {
    ops != [] ==> Allowed(m, ops[0]) && AllAllowed(Apply(m, ops[0]), ops[1..])
  }

  // ---------- The two maps ----------

  type PoolKey = (Handle, Handle)

  /** The two maps say the same as the simple one; a pool that was emptied may keep its key. */
  ghost predicate Agrees(m: Simple, pools: map<PoolKey, set<Handle>>, levels: map<Handle, Level>) {
    && levels.Keys == m.Keys
    && (forall b :: b in m ==> levels[b] == m[b].level)
    && (forall b :: b in m ==> (m[b].device, m[b].pool) in pools && b in pools[(m[b].device, m[b].pool)])
    && (forall k, b :: k in pools && b in pools[k] ==> b in m && (m[b].device, m[b].pool) == k)
  }

  /** The pools are pairwise disjoint, and the level map has exactly their union. */
  lemma {:induction false} PoolsDisjoint(m: Simple, pools: map<PoolKey, set<Handle>>, levels: map<Handle, Level>)
    requires Agrees(m, pools, levels)
    ensures forall k1, k2 :: k1 in pools && k2 in pools && k1 != k2 ==> pools[k1] !! pools[k2]
    ensures forall b :: b in levels <==> exists k :: k in pools && b in pools[k]
  {
    forall k1, k2 | k1 in pools && k2 in pools && k1 != k2
      ensures pools[k1] !! pools[k2]
    {
      assert forall b :: b in pools[k1] ==> (m[b].device, m[b].pool) == k1;
    }
    forall b
      ensures b in levels <==> exists k :: k in pools && b in pools[k]
    {
      if b in levels {
        assert b in m && b in pools[(m[b].device, m[b].pool)];
      }
    }
  }

  /** The erase-remove idiom that drops null handles. */
  function WithoutNull(buffers: seq<Handle>): (r: seq<Handle>)
    ensures forall b :: b in r <==> b in buffers && b != 0
  {
    if buffers == [] then []
    else if buffers[0] == NULL_HANDLE then WithoutNull(buffers[1..])
    else [buffers[0]] + WithoutNull(buffers[1..])
  }

  lemma {:induction false} WithoutNullDistinct(buffers: seq<Handle>)
    requires forall i, j :: 0 <= i < j < |buffers| && buffers[i] != NULL_HANDLE ==> buffers[i] != buffers[j]
    ensures forall i, j :: 0 <= i < j < |WithoutNull(buffers)| ==> WithoutNull(buffers)[i] != WithoutNull(buffers)[j]
  {
    if buffers != [] {
      WithoutNullDistinct(buffers[1..]);
      if buffers[0] != NULL_HANDLE {
        var rest := WithoutNull(buffers[1..]);
        assert buffers[0] !in buffers[1..];
        assert WithoutNull(buffers) == [buffers[0]] + rest;
      }
    }
  }

  lemma {:induction false} FreedAreThere(m: Simple, device: Handle, pool: Handle, buffers: seq<Handle>)
    requires Allowed(m, Free(device, pool, buffers))
    ensures forall b :: b in WithoutNull(buffers) ==> b in m && (m[b].device, m[b].pool) == (device, pool)
  {
    forall b | b in WithoutNull(buffers)
      ensures b in m && (m[b].device, m[b].pool) == (device, pool)
    {
      var i :| 0 <= i < |buffers| && buffers[i] == b;
    }
  }

  function AllAt(buffers: seq<Handle>, level: Level): map<Handle, Level> {
    map b | b in buffers :: level
  }

  lemma {:induction false} AllocateAgrees(m: Simple, pools: map<PoolKey, set<Handle>>, levels: map<Handle, Level>,
                                          device: Handle, pool: Handle, buffers: seq<Handle>, level: Level)
    requires Agrees(m, pools, levels) && Allowed(m, Allocate(device, pool, buffers, level))
    ensures var key := (device, pool);
            var present := if key in pools then pools[key] else {};
            Agrees(Apply(m, Allocate(device, pool, buffers, level)),
                   pools[key := present + set b | b in buffers], levels + AllAt(buffers, level))
  {
    assert forall b :: b in buffers ==> b !in m;
  }

  /** Freeing one buffer of a pool. */
  lemma {:induction false} FreeOne(m: Simple, pools: map<PoolKey, set<Handle>>, levels: map<Handle, Level>,
                                   key: PoolKey, b: Handle)
    requires Agrees(m, pools, levels) && b in m && (m[b].device, m[b].pool) == key
    ensures key in pools && b in levels && Agrees(m - {b}, pools[key := pools[key] - {b}], levels - {b})
  {
  }

  /** Emptying a pool. */
  lemma {:induction false} EmptyPool(m: Simple, pools: map<PoolKey, set<Handle>>, levels: map<Handle, Level>,
                                     key: PoolKey)
    requires Agrees(m, pools, levels) && key.1 != NULL_HANDLE
    ensures var m' := Apply(m, DestroyPool(key.0, key.1));
            if key in pools then Agrees(m', pools[key := {}], levels - pools[key]) else m' == m
  {
    var m' := Apply(m, DestroyPool(key.0, key.1));
    if key !in pools {
      assert forall b :: b in m ==> (m[b].device, m[b].pool) != key;
    }
  }

  class CommandBufferIndex {
    var cmdBufferPools: map<PoolKey, set<Handle>>
    var cmdBufferLevel: map<Handle, Level>
    ghost var simple: Simple

    ghost predicate Valid()
      reads this
    {
      Agrees(simple, cmdBufferPools, cmdBufferLevel) && NULL_HANDLE !in simple
    }

    constructor ()
      ensures Valid() && simple == map[]
    {
      cmdBufferPools, cmdBufferLevel, simple := map[], map[], map[];
    }

    /** getCmdBufferLevel */
    method GetCmdBufferLevel(buffer: Handle) returns (level: Level)
      requires Valid() && buffer in simple
      ensures level == simple[buffer].level
    {
      assert buffer in cmdBufferLevel;
      level := cmdBufferLevel[buffer];
    }

    /** addCmdBuffers */
    method AddCmdBuffers(device: Handle, pool: Handle, buffers: seq<Handle>, level: Level)
      requires Valid() && Allowed(simple, Allocate(device, pool, buffers, level))
      modifies this
      ensures Valid() && simple == Apply(old(simple), Allocate(device, pool, buffers, level))
    {
      var key := (device, pool);
      var present := if key in cmdBufferPools then cmdBufferPools[key] else {};
      AllocateAgrees(simple, cmdBufferPools, cmdBufferLevel, device, pool, buffers, level);
      cmdBufferPools := cmdBufferPools[key := present + set b | b in buffers];
      SetLevels(buffers, level);
      assert NULL_HANDLE !in buffers;
      simple := Apply(simple, Allocate(device, pool, buffers, level));
    }

    static lemma {:induction false} OneMoreLevel(levels: map<Handle, Level>, buffers: seq<Handle>, i: nat, level: Level)
      requires i < |buffers|
      ensures (levels + AllAt(buffers[..i], level))[buffers[i] := level] == levels + AllAt(buffers[..i + 1], level)
    {
      assert buffers[..i + 1] == buffers[..i] + [buffers[i]];
    }

    /** The loop of addCmdBuffers, with its assert. */
    method SetLevels(buffers: seq<Handle>, level: Level)
      requires forall i :: 0 <= i < |buffers| ==> buffers[i] !in cmdBufferLevel
      requires forall i, j :: 0 <= i < j < |buffers| ==> buffers[i] != buffers[j]
      modifies this`cmdBufferLevel
      ensures cmdBufferLevel == old(cmdBufferLevel) + AllAt(buffers, level)
    {
      for i := 0 to |buffers|
        invariant cmdBufferLevel == old(cmdBufferLevel) + AllAt(buffers[..i], level)
      {
        assert buffers[i] !in cmdBufferLevel;
        OneMoreLevel(old(cmdBufferLevel), buffers, i, level);
        cmdBufferLevel := cmdBufferLevel[buffers[i] := level];
      }
      assert buffers[..|buffers|] == buffers;
    }

    /** eraseCmdBuffers */
    method EraseCmdBuffers(device: Handle, pool: Handle, buffers0: seq<Handle>)
      requires Valid() && Allowed(simple, Free(device, pool, buffers0))
      modifies this
      ensures Valid() && simple == Apply(old(simple), Free(device, pool, buffers0))
    {
      var buffers := WithoutNull(buffers0);
      WithoutNullDistinct(buffers0);
      FreedAreThere(simple, device, pool, buffers0);
      if buffers != [] {
        EraseAll((device, pool), buffers);
      }
      assert AsSet(buffers0) - {NULL_HANDLE} == AsSet(buffers);
      assert old(simple) - AsSet(buffers0) == old(simple) - AsSet(buffers);
    }

    static lemma {:induction false} OneLess(m: Simple, buffers: seq<Handle>, i: nat)
      requires i < |buffers|
      ensures m - AsSet(buffers[..i]) - {buffers[i]} == m - AsSet(buffers[..i + 1])
    {
      assert buffers[..i + 1] == buffers[..i] + [buffers[i]];
    }

    /** One pass of the loop of eraseCmdBuffers, with its assert. */
    method EraseOne(key: PoolKey, buffer: Handle)
      requires Valid() && buffer in simple && (simple[buffer].device, simple[buffer].pool) == key
      requires key in cmdBufferPools
      modifies this
      ensures Valid() && key in cmdBufferPools && simple == old(simple) - {buffer}
    {
      FreeOne(simple, cmdBufferPools, cmdBufferLevel, key, buffer);
      cmdBufferPools := cmdBufferPools[key := cmdBufferPools[key] - {buffer}];
      assert buffer in cmdBufferLevel;
      cmdBufferLevel := cmdBufferLevel - {buffer};
      simple := simple - {buffer};
    }

    /** The loop of eraseCmdBuffers, on handles that are not null. */
    method EraseAll(key: PoolKey, buffers: seq<Handle>)
      requires Valid() && buffers != [] && forall i, j :: 0 <= i < j < |buffers| ==> buffers[i] != buffers[j]
      requires forall b :: b in buffers ==> b in simple && (simple[b].device, simple[b].pool) == key
      modifies this
      ensures Valid() && simple == old(simple) - AsSet(buffers)
    {
      assert buffers[0] in simple;
      assert key in cmdBufferPools;
      for i := 0 to |buffers|
        invariant Valid() && key in cmdBufferPools
        invariant simple == old(simple) - AsSet(buffers[..i])
      {
        assert buffers[i] !in buffers[..i] && buffers[i] in buffers;
        OneLess(old(simple), buffers, i);
        EraseOne(key, buffers[i]);
      }
      assert buffers[..|buffers|] == buffers;
    }

    /** eraseCmdBufferPool */
    method EraseCmdBufferPool(device: Handle, pool: Handle)
      requires Valid()
      modifies this
      ensures Valid() && simple == Apply(old(simple), DestroyPool(device, pool))
    {
      if pool != NULL_HANDLE {
        var key := (device, pool);
        EmptyPool(simple, cmdBufferPools, cmdBufferLevel, key);
        if key in cmdBufferPools {
          EraseLevels(cmdBufferPools[key]);
          cmdBufferPools := cmdBufferPools[key := {}];
        }
        simple := Apply(simple, DestroyPool(device, pool));
      }
    }

    /** The loop over the buffers of a pool. */
    method EraseLevels(buffers: set<Handle>)
      requires forall b :: b in buffers ==> b in cmdBufferLevel
      modifies this`cmdBufferLevel
      ensures cmdBufferLevel == old(cmdBufferLevel) - buffers
    {
      var left := buffers;
      while left != {}
        invariant left <= buffers && cmdBufferLevel == old(cmdBufferLevel) - (buffers - left)
      {
        var b :| b in left;
        assert b in cmdBufferLevel;
        cmdBufferLevel := cmdBufferLevel - {b};
        left := left - {b};
      }
    }

    /** One call of a trace. */
    method Perform(op: Op)
      requires Valid() && Allowed(simple, op)
      modifies this
      ensures Valid() && simple == Apply(old(simple), op)
    {
      match op {
        case Allocate(device, pool, buffers, level) => AddCmdBuffers(device, pool, buffers, level);
        case Free(device, pool, buffers) => EraseCmdBuffers(device, pool, buffers);
        case DestroyPool(device, pool) => EraseCmdBufferPool(device, pool);
      }
    }
  }

  /** A trace of calls; every assert of the methods holds on the way. */
  method RunTrace(ops: seq<Op>) returns (index: CommandBufferIndex)
    requires AllAllowed(map[], ops)
    ensures fresh(index) && index.Valid() && index.simple == ApplyAll(map[], ops)
  {
    index := new CommandBufferIndex();
    var i := 0;
    assert ops[0..] == ops;
    while i < |ops|
      invariant i <= |ops| && fresh(index) && index.Valid()
      invariant AllAllowed(index.simple, ops[i..]) && ApplyAll(index.simple, ops[i..]) == ApplyAll(map[], ops)
    {
      assert ops[i..][0] == ops[i] && ops[i..][1..] == ops[i + 1..];
      index.Perform(ops[i]);
      i := i + 1;
    }
  }

  /**
   The three operations in one: a free gives back what an allocation took, and destroying the pool of an
   allocation does too, if the pool was empty before.
   */
  lemma {:induction false} FreeUndoesAllocate(m: Simple, device: Handle, pool: Handle, buffers: seq<Handle>,
                                              level: Level)
    requires Allowed(m, Allocate(device, pool, buffers, level))
    ensures var m1 := Apply(m, Allocate(device, pool, buffers, level));
            && Allowed(m1, Free(device, pool, buffers))
            && Apply(m1, Free(device, pool, buffers)) == m
            && (pool != NULL_HANDLE && (forall b :: b in m ==> (m[b].device, m[b].pool) != (device, pool))
                ==> Apply(m1, DestroyPool(device, pool)) == m)
  {
    var m1 := Apply(m, Allocate(device, pool, buffers, level));
    assert forall b :: b in buffers ==> b !in m;
    assert Apply(m1, Free(device, pool, buffers)) == m;
  }
}
