/**
 * The object pool (Assets/PoolManager.cs): a list of pre-instantiated objects, handed out by
 * finding the first inactive one, growing by one object when allowed, and otherwise returning
 * null. An object is claimed by activating it and goes back to the pool when something else
 * deactivates it.
 */
module Pooling {
  import opened Wrappers
  import opened Geometry
  import opened Portals

  /** A pooled GameObject: its activeInHierarchy flag and its transform's pose. */
  class PooledObject {
    var active: bool
    var position: Vec3
    var rotation: Quat

    /** Instantiate(prefab) followed by SetActive(false). */
    constructor ()
      ensures !active
    {
      active := false;
    }
  }

  /** The first inactive slot, if any. */
  function FirstInactive(flags: seq<bool>): (r: Option<nat>)
    ensures r.Some? ==> r.value < |flags| && !flags[r.value] && forall k :: 0 <= k < r.value ==> flags[k]
    ensures r.None? ==> forall k :: 0 <= k < |flags| ==> flags[k]
  {
    if flags == [] then None
    else if !flags[0] then Some(0)
    else match FirstInactive(flags[1..]) {
      case None => None
      case Some(k) => Some(k + 1)
    }
  }

  /** What GetAvaliablePooledObject hands out (a slot, or none for null) and the pool's flags afterwards. */
  datatype Acquired = Acquired(index: Option<nat>, flags: seq<bool>)

  /** GetAvaliablePooledObject on the active flags of the pool. */
  function Acquire(flags: seq<bool>, canExpand: bool): Acquired {
    match FirstInactive(flags) {
      case Some(k) => Acquired(Some(k), flags)
      case None => if canExpand then Acquired(Some(|flags|), flags + [false]) else Acquired(None, flags)
    }
  }

  /**
   * The slot handed out is inactive; with an inactive slot available it is the first one and
   * nothing changes; with none, the pool grows by exactly one inactive slot at the end when it
   * may expand, and otherwise the result is null. Existing slots never change and the pool
   * never shrinks.
   */
  lemma AcquireSpec(flags: seq<bool>, canExpand: bool)
    ensures var r := Acquire(flags, canExpand);
            && (r.index.Some? ==> r.index.value < |r.flags| && !r.flags[r.index.value])
            && (FirstInactive(flags).Some? ==> r == Acquired(FirstInactive(flags), flags))
            && (r.index.None? <==> !canExpand && forall k :: 0 <= k < |flags| ==> flags[k])
            && (|r.flags| == |flags| + 1 <==> canExpand && forall k :: 0 <= k < |flags| ==> flags[k])
            && (|r.flags| == |flags| + 1 ==> r.index == Some(|flags|) && r.flags == flags + [false])
            && |flags| <= |r.flags| <= |flags| + 1 && r.flags[..|flags|] == flags
  {
    var r := Acquire(flags, canExpand);
    if FirstInactive(flags).None? && canExpand {
      assert r.flags[..|flags|] == flags;
    }
  }

  /**
   * Asking twice without activating returns the same object and leaves the pool as the first
   * call left it: handing out does not claim.
   */
  lemma AcquireTwiceSame(flags: seq<bool>, canExpand: bool)
    ensures var first := Acquire(flags, canExpand);
            Acquire(first.flags, canExpand) == first
  {
    var first := Acquire(flags, canExpand);
    if FirstInactive(flags).None? && canExpand {
      var f' := flags + [false];
      assert !f'[|flags|];
      assert forall k :: 0 <= k < |flags| ==> f'[k];
      assert FirstInactive(f') == Some(|flags|);
    }
  }

  /** ActivatePooledObject on the flags: acquire, then set the acquired slot active. */
  function Activate(flags: seq<bool>, canExpand: bool): Acquired {
    var a := Acquire(flags, canExpand);
    if a.index.None? then a
    else if a.index.value < |a.flags| then Acquired(a.index, a.flags[a.index.value := true])
    else a
  }

  /**
   * Activation fails exactly when acquisition does. On success the slot was inactive (or new)
   * and is now active, and every other slot keeps its flag.
   */
  lemma ActivateSpec(flags: seq<bool>, canExpand: bool)
    ensures var r := Activate(flags, canExpand);
            && (r.index.None? <==> Acquire(flags, canExpand).index.None?)
            && (r.index.None? ==> r.flags == flags)
            && (r.index.Some? ==> var k := r.index.value;
                  && k < |r.flags| && r.flags[k]
                  && (k < |flags| ==> !flags[k])
                  && |flags| <= |r.flags| <= |flags| + 1
                  && forall j :: 0 <= j < |flags| && j != k ==> r.flags[j] == flags[j])
  {
    AcquireSpec(flags, canExpand);
  }

  /** After one activation the next one, if it succeeds, hands out a different slot. */
  lemma ActivateTwiceDiffers(flags: seq<bool>, canExpand: bool)
    ensures var first := Activate(flags, canExpand);
            var second := Activate(first.flags, canExpand);
            first.index.Some? && second.index.Some? ==> first.index != second.index
  {
    var first := Activate(flags, canExpand);
    AcquireSpec(flags, canExpand);
    AcquireSpec(first.flags, canExpand);
  }

  /** The static PoolManager.instances dictionary, keyed by pool name. */
  class PoolRegistry {
    var instances: map<string, PoolManager>

    constructor ()
      ensures instances == map[]
    {
      instances := map[];
    }
  }

  class PoolManager {
    const poolName: string
    const initialCount: int
    const canExpand: bool
    const debugEnabled: bool
    var debugCount: int
    var pooledObjects: seq<PooledObject>

    /** The pooled objects are distinct: every one is instantiated fresh by the pool. */
    ghost predicate Valid()
      reads this
    {
      Distinct(pooledObjects)
    }

    /** The activeInHierarchy flag of every pooled object, in list order. */
    function Flags(): (f: seq<bool>)
      reads this, pooledObjects
      ensures |f| == |pooledObjects|
    {
      seq(|pooledObjects|, k requires 0 <= k < |pooledObjects| reads this, pooledObjects => pooledObjects[k].active)
    }

    constructor (poolName: string, initialCount: int, canExpand: bool, debugEnabled: bool)
      ensures this.poolName == poolName && this.initialCount == initialCount
      ensures this.canExpand == canExpand && this.debugEnabled == debugEnabled
      ensures pooledObjects == [] && debugCount == 0 && Valid()
    {
      this.poolName, this.initialCount := poolName, initialCount;
      this.canExpand, this.debugEnabled := canExpand, debugEnabled;
      pooledObjects, debugCount := [], 0;
    }

    /** Awake: the pool registers itself under its name, replacing any earlier pool of that name. */
    method Awake(registry: PoolRegistry)
      modifies registry
      ensures registry.instances == old(registry.instances)[poolName := this]
    {
      registry.instances := registry.instances[poolName := this];
    }

    /** Start: initialCount new objects (none when it is not positive), all inactive. */
    method Start()
      requires Valid()
      modifies this`pooledObjects
      ensures Valid()
      ensures var added := if initialCount > 0 then initialCount else 0;
              && |pooledObjects| == old(|pooledObjects|) + added
              && pooledObjects[..old(|pooledObjects|)] == old(pooledObjects)
              && Flags() == old(Flags()) + seq(added, _ => false)
    {
      var i := 0;
      while i < initialCount
        invariant Valid()
        invariant 0 <= i <= (if initialCount > 0 then initialCount else 0)
        invariant |pooledObjects| == old(|pooledObjects|) + i
        invariant pooledObjects[..old(|pooledObjects|)] == old(pooledObjects)
        invariant Flags() == old(Flags()) + seq(i, _ => false)
      {
        var _ := InstantiateNewPooledObject();
        i := i + 1;
      }
    }

    /** Update: the debug counter shows the pool's size when debugging is enabled. */
    method Update()
      modifies this`debugCount
      ensures debugCount == if debugEnabled then |pooledObjects| else old(debugCount)
    {
      if debugEnabled {
        debugCount := |pooledObjects|;
      }
    }

    /** InstantiateNewPooledObject: a new inactive object appended at the end. */
    method InstantiateNewPooledObject() returns (o: PooledObject)
      requires Valid()
      modifies this`pooledObjects
      ensures Valid() && fresh(o) && !o.active
      ensures pooledObjects == old(pooledObjects) + [o]
      ensures Flags() == old(Flags()) + [false]
    {
      o := new PooledObject();
      pooledObjects := pooledObjects + [o];
    }

    /** GetAvaliablePooledObject: exactly Acquire on the flags; the result is the acquired slot's object, or null. */
    method GetAvaliablePooledObject() returns (o: PooledObject?)
      requires Valid()
      modifies this`pooledObjects
      ensures Valid()
      ensures var a := Acquire(old(Flags()), canExpand);
              && Flags() == a.flags
              && (o == null <==> a.index.None?)
              && (a.index.Some? ==> a.index.value < |pooledObjects| && o == pooledObjects[a.index.value])
      ensures pooledObjects[..old(|pooledObjects|)] == old(pooledObjects)
      ensures o != null && o !in old(pooledObjects) ==> fresh(o)
    {
      var k := 0;
      while k < |pooledObjects|
        invariant 0 <= k <= |pooledObjects|
        invariant forall j :: 0 <= j < k ==> pooledObjects[j].active
      {
        if !pooledObjects[k].active {
          assert !Flags()[k] && forall j :: 0 <= j < k ==> Flags()[j];
          assert FirstInactive(Flags()) == Some(k);
          return pooledObjects[k];
        }
        k := k + 1;
      }
      assert FirstInactive(Flags()) == None;
      if canExpand {
        o := InstantiateNewPooledObject();
      } else {
        o := null;
      }
    }

    /** ActivatePooledObject(position, rotation): acquire, place, activate; null when acquisition fails. */
    method ActivatePooledObjectAt(position: Vec3, rotation: Quat) returns (o: PooledObject?)
      requires Valid()
      modifies this`pooledObjects, pooledObjects
      ensures Valid()
      ensures var a := Activate(old(Flags()), canExpand);
              && Flags() == a.flags
              && (o == null <==> a.index.None?)
              && (a.index.Some? ==> a.index.value < |pooledObjects| && o == pooledObjects[a.index.value])
      ensures o != null ==> o.position == position && o.rotation == rotation
      ensures pooledObjects[..old(|pooledObjects|)] == old(pooledObjects)
      ensures forall k :: 0 <= k < old(|pooledObjects|) && pooledObjects[k] != o ==>
                pooledObjects[k].position == old(pooledObjects[k].position)
                && pooledObjects[k].rotation == old(pooledObjects[k].rotation)
    {
      o := GetAvaliablePooledObject();
      if o == null {
        return null;
      }
      ghost var k :| 0 <= k < |pooledObjects| && o == pooledObjects[k];
      o.position, o.rotation := position, rotation;
      o.active := true;
      assert Flags() == old(Activate(Flags(), canExpand)).flags by {
        forall j | 0 <= j < |pooledObjects| ensures pooledObjects[j].active == (if j == k then true else old(Acquire(Flags(), canExpand)).flags[j]) {
          assert j != k ==> pooledObjects[j] != o;
        }
      }
    }

    /** ActivatePooledObject(): acquire and activate; null when acquisition fails. */
    method ActivatePooledObject() returns (o: PooledObject?)
      requires Valid()
      modifies this`pooledObjects, pooledObjects
      ensures Valid()
      ensures var a := Activate(old(Flags()), canExpand);
              && Flags() == a.flags
              && (o == null <==> a.index.None?)
              && (a.index.Some? ==> a.index.value < |pooledObjects| && o == pooledObjects[a.index.value])
      ensures pooledObjects[..old(|pooledObjects|)] == old(pooledObjects)
      ensures forall k :: 0 <= k < old(|pooledObjects|) ==>
                pooledObjects[k].position == old(pooledObjects[k].position)
                && pooledObjects[k].rotation == old(pooledObjects[k].rotation)
    {
      o := GetAvaliablePooledObject();
      if o == null {
        return null;
      }
      ghost var k :| 0 <= k < |pooledObjects| && o == pooledObjects[k];
      o.active := true;
      assert Flags() == old(Activate(Flags(), canExpand)).flags by {
        forall j | 0 <= j < |pooledObjects| ensures pooledObjects[j].active == (if j == k then true else old(Acquire(Flags(), canExpand)).flags[j]) {
          assert j != k ==> pooledObjects[j] != o;
        }
      }
    }
  }
}
