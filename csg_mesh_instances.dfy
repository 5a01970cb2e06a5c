/**
 * The bookkeeping of RealtimeCSG's MeshInstanceManager
 * (Assets/Plugins/RealtimeCSG/Editor/Scripts/Control/Managers/MeshInstanceManager.cs): the
 * models and mesh containers waiting to be validated, the round-robin helper-surface refresh,
 * and the rebuild of a container's mesh-instance lookup.
 *
 * The manager's static fields are the fields of one MeshInstanceManager object. Models and
 * mesh containers are identified by number. ValidateModelNow, ValidateGeneratedMeshesNow (as
 * called from Update), Refresh, UpdateContainerFlags and UpdateTransforms are engine work
 * outside the model: Update and UpdateHelperSurfaceVisibility return what they asked to
 * validate or refresh.
 */
module CSGMeshInstances {
  import opened Wrappers
  import opened Portals

  type ModelId = nat
  type ContainerId = nat

  /**
   * A model's generated-meshes container as the manager sees it: whether its owner is the
   * model, whether its instance lookup is missing or empty, and whether the lookup holds a
   * destroyed instance.
   */
  datatype Container = Container(id: ContainerId, ownedByModel: bool, lookupEmpty: bool, hasDestroyedInstance: bool)

  /** An entry of the model list: a destroyed model, or a live one with its container (None when it has none). */
  datatype ModelSlot = Missing | Live(model: ModelId, container: Option<Container>)

  /** The live models, in list order. */
  function LiveModels(models: seq<ModelSlot>): set<ModelId> {
    if models == [] then {}
    else LiveModels(models[..|models| - 1])
         + (if models[|models| - 1].Live? then {models[|models| - 1].model} else {})
  }

  /** A model is among the live models exactly when some live slot holds it. */
  lemma {:induction false} LiveModelsMembers(models: seq<ModelSlot>)
    ensures forall m :: m in LiveModels(models) <==> exists i :: 0 <= i < |models| && models[i].Live? && models[i].model == m
  {
    if models != [] {
      var prefix := models[..|models| - 1];
      LiveModelsMembers(prefix);
      assert forall i :: 0 <= i < |prefix| ==> prefix[i] == models[i];
    }
  }

  /** The containers of live models whose instance lookup is missing or empty. */
  function EmptyLookups(models: seq<ModelSlot>): set<ContainerId> {
    if models == [] then {}
    else
      var last := models[|models| - 1];
      EmptyLookups(models[..|models| - 1])
      + (if last.Live? && last.container.Some? && last.container.value.lookupEmpty then {last.container.value.id} else {})
  }

  /** A container is among the empty lookups exactly when a live slot holds it with its lookup empty. */
  lemma {:induction false} EmptyLookupsMembers(models: seq<ModelSlot>)
    ensures forall c :: c in EmptyLookups(models) <==>
              exists i :: 0 <= i < |models| && models[i].Live? && models[i].container.Some?
                          && models[i].container.value.id == c && models[i].container.value.lookupEmpty
  {
    if models != [] {
      var prefix := models[..|models| - 1];
      EmptyLookupsMembers(prefix);
      assert forall i :: 0 <= i < |prefix| ==> prefix[i] == models[i];
    }
  }

  /** A model whose container it owns: the models UpdateHelperSurfaceVisibility counts. */
  predicate Counted(slot: ModelSlot) {
    slot.Live? && slot.container.Some? && slot.container.value.ownedByModel
  }

  /** The positions of the counted models, in list order. */
  function CountedPositions(models: seq<ModelSlot>): (r: seq<nat>)
    ensures forall k :: 0 <= k < |r| ==> r[k] < |models| && Counted(models[r[k]])
    ensures forall i :: 0 <= i < |models| && Counted(models[i]) ==> i in r
    ensures forall j, k :: 0 <= j < k < |r| ==> r[j] < r[k]
  {
    if models == [] then []
    else CountedPositions(models[..|models| - 1]) + (if Counted(models[|models| - 1]) then [|models| - 1] else [])
  }

  /**
   * One UpdateHelperSurfaceVisibility pass over the model list: the number of counted models,
   * the positions of the models refreshed, and the containers sent for validation.
   */
  datatype RefreshScan = RefreshScan(count: nat, refreshed: seq<nat>, revalidate: set<ContainerId>)

  /** The pass with the given counter: a counted model is refreshed when forced or when numbered like the counter. */
  function ScanForRefresh(models: seq<ModelSlot>, counter: int, force: bool): RefreshScan {
    if models == [] then RefreshScan(0, [], {})
    else
      var before := ScanForRefresh(models[..|models| - 1], counter, force);
      var i := |models| - 1;
      if !Counted(models[i]) then before
      else if force || counter == before.count then
        RefreshScan(before.count + 1, before.refreshed + [i],
                    before.revalidate + (if models[i].container.value.hasDestroyedInstance then {models[i].container.value.id} else {}))
      else RefreshScan(before.count + 1, before.refreshed, before.revalidate)
  }

  /** The counted positions picked from `positions`: all when forced, else the one at the counter's place, if any. */
  function PickedForRefresh(positions: seq<nat>, counter: int, force: bool): seq<nat> {
    if force then positions
    else if 0 <= counter < |positions| then [positions[counter]]
    else []
  }

  /**
   * The pass counts the counted models and refreshes all of them when forced, else only the
   * one whose place among them equals the counter; only refreshed containers are revalidated.
   */
  lemma {:induction false} ScanRefreshesPicked(models: seq<ModelSlot>, counter: int, force: bool)
    ensures var scan := ScanForRefresh(models, counter, force);
            && scan.count == |CountedPositions(models)|
            && scan.refreshed == PickedForRefresh(CountedPositions(models), counter, force)
            && forall c :: c in scan.revalidate ==>
                 exists k :: 0 <= k < |scan.refreshed| && models[scan.refreshed[k]].container.value.id == c
  {
    ScanCountsAndPicks(models, counter, force);
    ScanRevalidatesRefreshed(models, counter, force);
  }

  /** The pass counts every counted model and refreshes the picked ones. */
  lemma {:induction false} ScanCountsAndPicks(models: seq<ModelSlot>, counter: int, force: bool)
    ensures var scan := ScanForRefresh(models, counter, force);
            && scan.count == |CountedPositions(models)|
            && scan.refreshed == PickedForRefresh(CountedPositions(models), counter, force)
  {
    if models != [] {
      ScanCountsAndPicks(models[..|models| - 1], counter, force);
    }
  }

  /** Each refreshed position names a counted model. */
  predicate RefreshedAreCounted(models: seq<ModelSlot>, refreshed: seq<nat>) {
    forall k :: 0 <= k < |refreshed| ==> refreshed[k] < |models| && Counted(models[refreshed[k]])
  }

  /** Each container queued for revalidation is the container of a refreshed model. */
  predicate RevalidatedAreRefreshed(models: seq<ModelSlot>, refreshed: seq<nat>, revalidate: set<ContainerId>)
    requires RefreshedAreCounted(models, refreshed)
  {
    forall c :: c in revalidate ==> exists k :: 0 <= k < |refreshed| && models[refreshed[k]].container.value.id == c
  }

  /** Every container queued for revalidation belongs to a refreshed model. */
  lemma {:induction false} ScanRevalidatesRefreshed(models: seq<ModelSlot>, counter: int, force: bool)
    ensures var scan := ScanForRefresh(models, counter, force);
            && RefreshedAreCounted(models, scan.refreshed)
            && RevalidatedAreRefreshed(models, scan.refreshed, scan.revalidate)
  {
    if models != [] {
      var prefix, i := models[..|models| - 1], |models| - 1;
      ScanRevalidatesRefreshed(prefix, counter, force);
      var before := ScanForRefresh(prefix, counter, force);
      var scan := ScanForRefresh(models, counter, force);
      assert RefreshedAreCounted(prefix, before.refreshed);
      assert RevalidatedAreRefreshed(prefix, before.refreshed, before.revalidate);
      forall k | 0 <= k < |before.refreshed|
        ensures before.refreshed[k] < |prefix| && models[before.refreshed[k]] == prefix[before.refreshed[k]]
      {
      }
      if Counted(models[i]) && (force || counter == before.count) {
        assert scan.refreshed == before.refreshed + [i];
        assert RefreshedAreCounted(models, scan.refreshed);
        forall c | c in scan.revalidate
          ensures exists k :: 0 <= k < |scan.refreshed| && models[scan.refreshed[k]].container.value.id == c
        {
          if c in before.revalidate {
            var k :| 0 <= k < |before.refreshed| && prefix[before.refreshed[k]].container.value.id == c;
            assert scan.refreshed[k] == before.refreshed[k];
          } else {
            assert scan.refreshed[|before.refreshed|] == i;
          }
        }
      } else {
        assert scan.refreshed == before.refreshed && scan.revalidate == before.revalidate;
      }
    }
  }

  /** The refresh counter after a call over `count` counted models. */
  function NextRefreshCounter(counter: int, count: nat): int {
    if counter < count then counter + 1 else 0
  }

  /**
   * Starting from 0, the counter goes 0, 1, ..., count and back to 0, staying within
   * [0, count]; a non-forced call refreshes the counted model at the counter's place, and none
   * on the call where the counter equals the count.
   */
  lemma RefreshCounterCycles(counter: int, positions: seq<nat>)
    requires 0 <= counter <= |positions|
    ensures 0 <= NextRefreshCounter(counter, |positions|) <= |positions|
    ensures |PickedForRefresh(positions, counter, false)| <= 1
    ensures PickedForRefresh(positions, counter, false) == [] <==> counter == |positions|
    ensures counter < |positions| ==> PickedForRefresh(positions, counter, false) == [positions[counter]]
  {
  }

  /**
   * A transform under a generated-meshes container: one without a GeneratedMeshInstance, or
   * an instance with its key and validity. `id` tells children apart; `destroyable` is whether
   * DestroyImmediate succeeds on it (TryDestroy): when it throws, Destroy leaves the child in
   * place, deactivated.
   */
  datatype MeshChild = NoInstance(id: nat, destroyable: bool)
                     | Instance(id: nat, key: int, valid: bool, destroyable: bool)

  /** A child that goes into the lookup if it is the first of its key. */
  predicate Eligible(c: MeshChild) {
    c.Instance? && c.valid
  }

  /** MeshInstanceManager.cs:1704-1724: the child has no instance, its key is taken, or it is not valid. */
  predicate Rejected<V>(lookup: map<int, V>, c: MeshChild) {
    c.NoInstance? || c.key in lookup || !c.valid
  }

  /**
   * How the loop classifies the children it examines, in the order it examines them: the
   * position each key is entered from, and the positions of the children it calls Destroy on.
   */
  datatype Classification = Classification(lookup: map<int, nat>, destroyed: seq<nat>)

  /** A child the rebuild keeps: eligible, and the one its key maps to. */
  predicate Kept(lookup: map<int, nat>, children: seq<MeshChild>, i: int)
    requires 0 <= i < |children|
  {
    Eligible(children[i]) && children[i].key in lookup && lookup[children[i].key] == i
  }

  /** Each examined child, in turn, is entered under its key unless it is rejected, in which case it is destroyed. */
  function Classified(examined: seq<MeshChild>): Classification {
    if examined == [] then Classification(map[], [])
    else
      var before := Classified(examined[..|examined| - 1]);
      var i := |examined| - 1;
      var c := examined[i];
      if Rejected(before.lookup, c) then Classification(before.lookup, before.destroyed + [i])
      else Classification(before.lookup[c.key := i], before.destroyed)
  }

  /** Each key of the lookup maps to the first eligible child with that key. */
  predicate MapsToFirst(children: seq<MeshChild>, lookup: map<int, nat>) {
    forall k :: k in lookup ==>
      && lookup[k] < |children| && Eligible(children[lookup[k]]) && children[lookup[k]].key == k
      && forall j :: 0 <= j < lookup[k] ==> !(Eligible(children[j]) && children[j].key == k)
  }

  /** Every eligible child's key is in the lookup. */
  predicate CoversEligible(children: seq<MeshChild>, lookup: map<int, nat>) {
    forall i :: 0 <= i < |children| && Eligible(children[i]) ==> children[i].key in lookup
  }

  /** Exactly the children not kept are destroyed, in order. */
  predicate DestroysUnkept(children: seq<MeshChild>, r: Classification) {
    && (forall i :: 0 <= i < |children| ==> (i in r.destroyed <==> !Kept(r.lookup, children, i)))
    && (forall j :: 0 <= j < |r.destroyed| ==> r.destroyed[j] < |children|)
    && forall j, k :: 0 <= j < k < |r.destroyed| ==> r.destroyed[j] < r.destroyed[k]
  }

  /** Over the examined children, each key maps to its first eligible child and every eligible child's key is present. */
  lemma {:induction false} ClassifiedMapsFirst(examined: seq<MeshChild>)
    ensures MapsToFirst(examined, Classified(examined).lookup)
    ensures CoversEligible(examined, Classified(examined).lookup)
  {
    if examined != [] {
      var prefix, i := examined[..|examined| - 1], |examined| - 1;
      ClassifiedMapsFirst(prefix);
      var before := Classified(prefix).lookup;
      assert MapsToFirst(prefix, before) && CoversEligible(prefix, before);
      var c := examined[i];
      if !Rejected(before, c) {
        assert forall j :: 0 <= j < i ==> !(Eligible(examined[j]) && examined[j].key == c.key) by {
          forall j | 0 <= j < i ensures !(Eligible(examined[j]) && examined[j].key == c.key) {
            assert examined[j] == prefix[j];
          }
        }
      }
    }
  }

  /** Of the examined children, exactly those that are not the kept child of their key are destroyed. */
  lemma {:induction false} ClassifiedDestroysUnkept(examined: seq<MeshChild>)
    ensures DestroysUnkept(examined, Classified(examined))
  {
    if examined != [] {
      var prefix, i := examined[..|examined| - 1], |examined| - 1;
      ClassifiedDestroysUnkept(prefix);
      ClassifiedMapsFirst(prefix);
      var before := Classified(prefix);
      var r := Classified(examined);
      assert DestroysUnkept(prefix, before) && MapsToFirst(prefix, before.lookup);
      forall j | 0 <= j < |before.destroyed| ensures r.destroyed[j] == before.destroyed[j] < i {
      }
      forall j | 0 <= j < i ensures (j in r.destroyed <==> !Kept(r.lookup, examined, j)) {
        assert examined[j] == prefix[j];
        assert j in r.destroyed <==> j in before.destroyed;
      }
    }
  }

  /**
   * The rebuild loop's state: the children still under the container, the lookup so far, the
   * children examined so far and the children Destroy was called on, both in order.
   */
  datatype Rebuild = Rebuild(children: seq<MeshChild>, lookup: map<int, MeshChild>,
                             examined: seq<MeshChild>, destroyed: seq<MeshChild>)

  /** Destroy on the child in slot i: a child DestroyImmediate removes leaves its slot to the next one. */
  function DestroyAt(s: Rebuild, i: nat): Rebuild
    requires i < |s.children|
  {
    var c := s.children[i];
    Rebuild(if c.destroyable then s.children[..i] + s.children[i + 1..] else s.children,
            s.lookup, s.examined + [c], s.destroyed + [c])
  }

  /** meshInstanceLookup[key] = meshInstance for the child in slot i. */
  function EnterAt(s: Rebuild, i: nat): Rebuild
    requires i < |s.children| && s.children[i].Instance?
  {
    var c := s.children[i];
    Rebuild(s.children, s.lookup[c.key := c], s.examined + [c], s.destroyed)
  }

  /**
   * The loop of MeshInstanceManager.cs:1701-1728 from index i on, reading childCount afresh on
   * every test: after a child is removed, i++ passes over the child that took its slot.
   */
  function RebuildFrom(i: nat, s: Rebuild): Rebuild
    decreases |s.children| - i
  {
    if i >= |s.children| then s
    else if Rejected(s.lookup, s.children[i]) then RebuildFrom(i + 1, DestroyAt(s, i))
    else RebuildFrom(i + 1, EnterAt(s, i))
  }

  /** The rebuild of a container with the given children, from a cleared lookup. */
  function RebuiltLookup(children: seq<MeshChild>): Rebuild {
    RebuildFrom(0, Rebuild(children, map[], [], []))
  }

  /**
   * The rebuild's lookup and destroyed children are the classification of the children it
   * examined: key k holds the examined child at position Classified(examined).lookup[k], and
   * the destroyed children are the examined ones at the classified positions, in order.
   */
  ghost predicate FollowsClassification(s: Rebuild) {
    var c := Classified(s.examined);
    && MapsToFirst(s.examined, c.lookup) && DestroysUnkept(s.examined, c)
    && s.lookup.Keys == c.lookup.Keys
    && (forall k :: k in c.lookup ==> s.lookup[k] == s.examined[c.lookup[k]])
    && |s.destroyed| == |c.destroyed|
    && forall j :: 0 <= j < |s.destroyed| ==> s.destroyed[j] == s.examined[c.destroyed[j]]
  }

  /** One step of the loop examines one more child and classifies it as Classified does. */
  lemma StepFollowsClassification(s: Rebuild, i: nat)
    requires FollowsClassification(s) && i < |s.children|
    ensures FollowsClassification(if Rejected(s.lookup, s.children[i]) then DestroyAt(s, i) else EnterAt(s, i))
  {
    var c := s.children[i];
    var ex := s.examined + [c];
    assert ex[..|ex| - 1] == s.examined;
    ClassifiedMapsFirst(ex);
    ClassifiedDestroysUnkept(ex);
    var before := Classified(s.examined);
    forall k | k in before.lookup ensures ex[before.lookup[k]] == s.examined[before.lookup[k]] {
    }
    forall j | 0 <= j < |before.destroyed| ensures ex[before.destroyed[j]] == s.examined[before.destroyed[j]] {
      assert before.destroyed[j] in before.destroyed;
    }
  }

  lemma {:induction false} RebuildFollowsClassification(i: nat, s: Rebuild)
    requires FollowsClassification(s)
    ensures FollowsClassification(RebuildFrom(i, s))
    decreases |s.children| - i
  {
    if i < |s.children| {
      StepFollowsClassification(s, i);
      if Rejected(s.lookup, s.children[i]) {
        RebuildFollowsClassification(i + 1, DestroyAt(s, i));
      } else {
        RebuildFollowsClassification(i + 1, EnterAt(s, i));
      }
    }
  }

  /**
   * Among the children the rebuild examines, each key of the lookup holds the first valid
   * instance child with that key, every examined valid instance's key is present, and Destroy
   * is called, in order, on exactly the examined children that are not the ones kept.
   */
  lemma RebuiltLookupMapsFirst(children: seq<MeshChild>)
    ensures FollowsClassification(RebuiltLookup(children))
    ensures var r := RebuiltLookup(children);
            var c := Classified(r.examined);
            && (forall k :: k in r.lookup ==> Eligible(r.lookup[k]) && r.lookup[k].key == k)
            && (forall j :: 0 <= j < |r.examined| && Eligible(r.examined[j]) ==>
                  r.examined[j].key in r.lookup && j >= c.lookup[r.examined[j].key])
            && (forall j :: 0 <= j < |r.examined| ==> (j in c.destroyed <==> !Kept(c.lookup, r.examined, j)))
  {
    var s := Rebuild(children, map[], [], []);
    assert Classified([]) == Classification(map[], []);
    RebuildFollowsClassification(0, s);
    var r := RebuiltLookup(children);
    ClassifiedMapsFirst(r.examined);
  }

  /** Slots before i, already examined, keep their children. */
  lemma {:induction false} RebuildKeepsExaminedPrefix(i: nat, s: Rebuild)
    requires i <= |s.children|
    ensures var r := RebuildFrom(i, s);
            i <= |r.children| && r.children[..i] == s.children[..i]
    decreases |s.children| - i
  {
    if i < |s.children| {
      var s' := if Rejected(s.lookup, s.children[i]) then DestroyAt(s, i) else EnterAt(s, i);
      assert s'.children[..i] == s.children[..i];
      if i + 1 <= |s'.children| {
        RebuildKeepsExaminedPrefix(i + 1, s');
        PrefixOfPrefix(RebuildFrom(i + 1, s').children, s'.children, s.children, i);
      }
    }
  }

  /**
   * After a child in slot i is destroyed and removed, the child that slid into slot i is
   * passed over: it is still there, in slot i, when the loop ends, whatever it holds.
   */
  lemma SlidChildIsPassedOver(i: nat, s: Rebuild)
    requires i + 1 < |s.children| && Rejected(s.lookup, s.children[i]) && s.children[i].destroyable
    ensures var r := RebuildFrom(i, s);
            i < |r.children| && r.children[i] == s.children[i + 1]
  {
    var s' := DestroyAt(s, i);
    RebuildKeepsExaminedPrefix(i + 1, s');
    assert s'.children[..i + 1][i] == s.children[i + 1];
  }

  /** A rejected child that DestroyImmediate cannot remove stays in its slot. */
  lemma UndestroyableChildStays(i: nat, s: Rebuild)
    requires i < |s.children| && Rejected(s.lookup, s.children[i]) && !s.children[i].destroyable
    ensures var r := RebuildFrom(i, s);
            i < |r.children| && r.children[i] == s.children[i]
  {
    var s' := DestroyAt(s, i);
    RebuildKeepsExaminedPrefix(i + 1, s');
    assert s'.children[..i + 1][i] == s.children[i];
  }

  /**
   * A child without an instance followed by a valid instance with key 7: the first is
   * destroyed, the instance slides into slot 0 and is never examined, and the lookup stays
   * empty although a valid instance is under the container.
   */
  lemma PassedOverInstanceIsNotEntered()
    ensures var first, second := NoInstance(0, true), Instance(1, 7, true, true);
            RebuiltLookup([first, second]) == Rebuild([second], map[], [first], [first])
  {
    var first, second := NoInstance(0, true), Instance(1, 7, true, true);
    var s := Rebuild([first, second], map[], [], []);
    var s1 := DestroyAt(s, 0);
    assert s1.children == [second];
    assert RebuildFrom(0, s) == RebuildFrom(1, s1);
  }

  /** The examined children are the original ones in order, with the passed-over ones left out. */
  lemma {:induction false} RebuildExaminesInOrder(i: nat, s: Rebuild)
    requires i <= |s.children|
    ensures IsSubsequence(RebuildFrom(i, s).examined, s.examined + s.children[i..])
    decreases |s.children| - i
  {
    if i == |s.children| {
      assert s.examined + s.children[i..] == s.examined;
      SubsequenceRefl(s.examined);
    } else {
      var c := s.children[i];
      var s' := if Rejected(s.lookup, c) then DestroyAt(s, i) else EnterAt(s, i);
      var r := RebuildFrom(i + 1, s');
      assert RebuildFrom(i, s) == r;
      var b := s.examined + s.children[i..];
      if i + 1 <= |s'.children| {
        RebuildExaminesInOrder(i + 1, s');
        ExaminedStep(s, i);
        SubsequenceTrans(r.examined, s'.examined + s'.children[i + 1..], b);
      } else {
        assert r == s';
        assert s.children[i..] == [c];
        assert r.examined == b;
        SubsequenceRefl(b);
      }
    }
  }

  /** One step moves the child in slot i to the examined ones, and passes over the next one if it removed it. */
  lemma ExaminedStep(s: Rebuild, i: nat)
    requires i < |s.children|
    ensures var s' := if Rejected(s.lookup, s.children[i]) then DestroyAt(s, i) else EnterAt(s, i);
            i + 1 <= |s'.children| ==> IsSubsequence(s'.examined + s'.children[i + 1..], s.examined + s.children[i..])
  {
    var c := s.children[i];
    var s' := if Rejected(s.lookup, c) then DestroyAt(s, i) else EnterAt(s, i);
    var b := s.examined + s.children[i..];
    assert s.children[i..] == [c] + s.children[i + 1..];
    if i + 1 <= |s'.children| {
      if Rejected(s.lookup, c) && c.destroyable {
        var n := |s.examined| + 1;
        assert s'.examined + s'.children[i + 1..] == b[..n] + b[n + 1..];
        SubsequenceDrop(b, n);
      } else {
        assert s'.examined + s'.children[i + 1..] == b;
        SubsequenceRefl(b);
      }
    }
  }

  /** The children left under the container are the original ones in order, with the removed ones left out. */
  lemma {:induction false} RebuildKeepsOrder(i: nat, s: Rebuild)
    ensures IsSubsequence(RebuildFrom(i, s).children, s.children)
    decreases |s.children| - i
  {
    if i >= |s.children| {
      SubsequenceRefl(s.children);
    } else {
      var c := s.children[i];
      var s' := if Rejected(s.lookup, c) then DestroyAt(s, i) else EnterAt(s, i);
      RebuildKeepsOrder(i + 1, s');
      if Rejected(s.lookup, c) && c.destroyable {
        SubsequenceDrop(s.children, i);
        SubsequenceTrans(RebuildFrom(i + 1, s').children, s'.children, s.children);
      }
    }
  }

  /** A generated-meshes container with its children and its lookup. */
  class GeneratedMeshes {
    /** The owning model; None for a missing owner. */
    var owner: Option<ModelId>
    /** The container transform's children, in sibling order. */
    var children: seq<MeshChild>
    /** meshInstanceLookup: key to mesh instance. */
    var meshInstanceLookup: map<int, MeshChild>

    constructor (owner: Option<ModelId>, children: seq<MeshChild>)
      ensures this.owner == owner && this.children == children && meshInstanceLookup == map[]
    {
      this.owner, this.children, meshInstanceLookup := owner, children, map[];
    }

    /**
     * The rebuild loop of ValidateGeneratedMeshesNow: the lookup is cleared and each child in
     * slot i, for i up to the current child count, is entered under its key unless it has no
     * instance, its key is taken, or it is not valid; those children are destroyed (returned,
     * in order), and a destroyed child that DestroyImmediate removes leaves the child count one
     * lower while i still moves on.
     */
    method RebuildLookup() returns (destroyed: seq<MeshChild>)
      modifies this`children, this`meshInstanceLookup
      ensures var r := RebuiltLookup(old(children));
              children == r.children && meshInstanceLookup == r.lookup && destroyed == r.destroyed
    {
      meshInstanceLookup := map[];
      destroyed := [];
      ghost var examined := [];
      var i := 0;
      while i < |children|
        invariant RebuildFrom(i, Rebuild(children, meshInstanceLookup, examined, destroyed)) == RebuiltLookup(old(children))
        decreases |children| - i
      {
        ghost var s := Rebuild(children, meshInstanceLookup, examined, destroyed);
        var child := children[i];
        if child.NoInstance? || child.key in meshInstanceLookup || !child.valid {
          destroyed := destroyed + [child];
          if child.destroyable {
            children := children[..i] + children[i + 1..];
          }
        } else {
          meshInstanceLookup := meshInstanceLookup[child.key := child];
        }
        examined := examined + [child];
        i := i + 1;
      }
    }
  }

  /**
   * The outcome of ValidateGeneratedMeshesNow: in play mode, for a missing container, or when
   * the sibling check destroyed it, nothing is rebuilt; a container with no owner is
   * destroyed; otherwise the lookup is rebuilt.
   */
  datatype ValidateOutcome = Skipped | DestroyedContainer | Rebuilt(destroyedChildren: seq<MeshChild>)

  /**
   * ValidateGeneratedMeshesNow. `containerSurvivesSiblingCheck` is whether the container still
   * exists after ValidateModelNow on its owner, which runs unless skipSiblingCheck is set.
   */
  method ValidateGeneratedMeshesNow(generatedMeshes: GeneratedMeshes?, skipSiblingCheck: bool, isPlaying: bool,
                                    containerSurvivesSiblingCheck: bool) returns (outcome: ValidateOutcome)
    modifies if generatedMeshes == null then {} else {generatedMeshes}
    ensures generatedMeshes != null ==> generatedMeshes.owner == old(generatedMeshes.owner)
    ensures isPlaying || generatedMeshes == null ==> outcome == Skipped
    ensures !isPlaying && generatedMeshes != null && generatedMeshes.owner.None? ==> outcome == DestroyedContainer
    ensures outcome.Rebuilt? <==>
              !isPlaying && generatedMeshes != null && generatedMeshes.owner.Some? && (skipSiblingCheck || containerSurvivesSiblingCheck)
    ensures outcome.Rebuilt? ==>
              var r := RebuiltLookup(old(generatedMeshes.children));
              && generatedMeshes.children == r.children && generatedMeshes.meshInstanceLookup == r.lookup
              && outcome.destroyedChildren == r.destroyed
    ensures !outcome.Rebuilt? && generatedMeshes != null ==>
              generatedMeshes.meshInstanceLookup == old(generatedMeshes.meshInstanceLookup)
              && generatedMeshes.children == old(generatedMeshes.children)
  {
    if isPlaying || generatedMeshes == null {
      return Skipped;
    }
    if generatedMeshes.owner.Some? {
      if !skipSiblingCheck && !containerSurvivesSiblingCheck {
        return Skipped;
      }
    } else {
      return DestroyedContainer;
    }
    var destroyed := generatedMeshes.RebuildLookup();
    outcome := Rebuilt(destroyed);
  }

  /** What one Update asked to validate: models with and without children, then containers. */
  datatype Validated = Validated(withChildren: set<ModelId>, withoutChildren: set<ModelId>, containers: set<ContainerId>)

  class MeshInstanceManager {
    var validateGeneratedMeshes: set<ContainerId>
    var validateModelWithChildren: set<ModelId>
    var validateModelWithoutChildren: set<ModelId>
    var ignoreValidateModelDelayed: bool
    var refreshModelCounter: int

    /** No model waits in both sets. */
    predicate Valid()
      reads this
    {
      validateModelWithChildren !! validateModelWithoutChildren
    }

    constructor ()
      ensures Valid()
      ensures validateGeneratedMeshes == {} && validateModelWithChildren == {} && validateModelWithoutChildren == {}
      ensures !ignoreValidateModelDelayed && refreshModelCounter == 0
    {
      validateGeneratedMeshes, validateModelWithChildren, validateModelWithoutChildren := {}, {}, {};
      ignoreValidateModelDelayed, refreshModelCounter := false, 0;
    }

    /**
     * ValidateModelDelayed: ignored while the flag is set; with children the model moves to the
     * with-children set; without, it joins the without-children set unless it already waits
     * with children.
     */
    method ValidateModelDelayed(model: ModelId, checkChildren: bool)
      requires Valid()
      modifies this`validateModelWithChildren, this`validateModelWithoutChildren
      ensures Valid()
      ensures old(ignoreValidateModelDelayed) ==>
                validateModelWithChildren == old(validateModelWithChildren)
                && validateModelWithoutChildren == old(validateModelWithoutChildren)
      ensures !old(ignoreValidateModelDelayed) && checkChildren ==>
                validateModelWithChildren == old(validateModelWithChildren) + {model}
                && validateModelWithoutChildren == old(validateModelWithoutChildren) - {model}
      ensures !old(ignoreValidateModelDelayed) && !checkChildren ==>
                validateModelWithChildren == old(validateModelWithChildren)
                && validateModelWithoutChildren == old(validateModelWithoutChildren)
                   + (if model in old(validateModelWithChildren) then {} else {model})
    {
      if ignoreValidateModelDelayed {
        return;
      }
      if checkChildren {
        validateModelWithChildren := validateModelWithChildren + {model};
        validateModelWithoutChildren := validateModelWithoutChildren - {model};
      } else {
        if model !in validateModelWithChildren {
          validateModelWithoutChildren := validateModelWithoutChildren + {model};
        }
      }
    }

    /** ValidateGeneratedMeshesDelayed: the container waits for validation. */
    method ValidateGeneratedMeshesDelayed(container: ContainerId)
      modifies this`validateGeneratedMeshes
      ensures validateGeneratedMeshes == old(validateGeneratedMeshes) + {container}
    {
      validateGeneratedMeshes := validateGeneratedMeshes + {container};
    }

    /**
     * Update: every live model is queued without children; both model sets are then validated
     * and emptied with delayed validation switched off (and switched back on at the end, as the
     * finally clause does); the containers of live models with an empty lookup are queued; and
     * the queued containers are validated and emptied.
     */
    method Update(models: seq<ModelSlot>) returns (validated: Validated)
      requires Valid() && !ignoreValidateModelDelayed
      modifies this`validateGeneratedMeshes, this`validateModelWithChildren,
               this`validateModelWithoutChildren, this`ignoreValidateModelDelayed
      ensures Valid() && !ignoreValidateModelDelayed
      ensures validateModelWithChildren == {} && validateModelWithoutChildren == {} && validateGeneratedMeshes == {}
      ensures validated.withChildren == old(validateModelWithChildren)
      ensures validated.withoutChildren == old(validateModelWithoutChildren) + (LiveModels(models) - old(validateModelWithChildren))
      ensures validated.containers == old(validateGeneratedMeshes) + EmptyLookups(models)
    {
      QueueLiveModels(models);
      ignoreValidateModelDelayed := true;
      var withChildren := validateModelWithChildren;
      validateModelWithChildren := {};
      var withoutChildren := validateModelWithoutChildren;
      validateModelWithoutChildren := {};
      ignoreValidateModelDelayed := false;
      QueueEmptyLookups(models);
      var containers := validateGeneratedMeshes;
      validateGeneratedMeshes := {};
      validated := Validated(withChildren, withoutChildren, containers);
    }

    /** The first loop of Update: each live model is queued without children. */
    method QueueLiveModels(models: seq<ModelSlot>)
      requires Valid() && !ignoreValidateModelDelayed
      modifies this`validateModelWithChildren, this`validateModelWithoutChildren
      ensures Valid()
      ensures validateModelWithChildren == old(validateModelWithChildren)
      ensures validateModelWithoutChildren == old(validateModelWithoutChildren) + (LiveModels(models) - old(validateModelWithChildren))
    {
      var i := 0;
      while i < |models|
        invariant 0 <= i <= |models|
        invariant Valid()
        invariant validateModelWithChildren == old(validateModelWithChildren)
        invariant validateModelWithoutChildren == old(validateModelWithoutChildren) + (LiveModels(models[..i]) - old(validateModelWithChildren))
      {
        assert models[..i + 1][..i] == models[..i];
        if models[i].Live? {
          ValidateModelDelayed(models[i].model, false);
        }
        i := i + 1;
      }
      assert models[..i] == models;
    }

    /** The second loop of Update: the container of each live model with an empty lookup is queued. */
    method QueueEmptyLookups(models: seq<ModelSlot>)
      modifies this`validateGeneratedMeshes
      ensures validateGeneratedMeshes == old(validateGeneratedMeshes) + EmptyLookups(models)
    {
      var i := 0;
      while i < |models|
        invariant 0 <= i <= |models|
        invariant validateGeneratedMeshes == old(validateGeneratedMeshes) + EmptyLookups(models[..i])
      {
        assert models[..i + 1][..i] == models[..i];
        var slot := models[i];
        if slot.Live? && slot.container.Some? && slot.container.value.lookupEmpty {
          ValidateGeneratedMeshesDelayed(slot.container.value.id);
        }
        i := i + 1;
      }
      assert models[..i] == models;
    }

    /**
     * UpdateHelperSurfaceVisibility: outside play mode, the counted models (live, owning their
     * container) are numbered in list order; all of them are refreshed when forced, else only
     * the one numbered like the counter; a refreshed container holding a destroyed instance is
     * queued for validation; and the counter moves on, wrapping to 0 after reaching the count.
     * Returns the positions of the refreshed models.
     */
    method UpdateHelperSurfaceVisibility(models: seq<ModelSlot>, force: bool, isPlaying: bool) returns (refreshed: seq<nat>)
      modifies this`refreshModelCounter, this`validateGeneratedMeshes
      ensures isPlaying ==> refreshed == [] && refreshModelCounter == old(refreshModelCounter)
                            && validateGeneratedMeshes == old(validateGeneratedMeshes)
      ensures !isPlaying ==>
                var scan := ScanForRefresh(models, old(refreshModelCounter), force);
                && refreshed == scan.refreshed
                && validateGeneratedMeshes == old(validateGeneratedMeshes) + scan.revalidate
                && refreshModelCounter == NextRefreshCounter(old(refreshModelCounter), scan.count)
    {
      if isPlaying {
        return [];
      }
      var currentRefreshModelCount := 0;
      refreshed := [];
      ghost var revalidate: set<ContainerId> := {};
      var i := 0;
      while i < |models|
        invariant 0 <= i <= |models|
        invariant ScanForRefresh(models[..i], refreshModelCounter, force) == RefreshScan(currentRefreshModelCount, refreshed, revalidate)
        invariant refreshModelCounter == old(refreshModelCounter)
        invariant validateGeneratedMeshes == old(validateGeneratedMeshes) + revalidate
      {
        assert models[..i + 1][..i] == models[..i];
        var slot := models[i];
        if Counted(slot) {
          if force || refreshModelCounter == currentRefreshModelCount {
            refreshed := refreshed + [i];
            if slot.container.value.hasDestroyedInstance {
              ValidateGeneratedMeshesDelayed(slot.container.value.id);
              revalidate := revalidate + {slot.container.value.id};
            }
          }
          currentRefreshModelCount := currentRefreshModelCount + 1;
        }
        i := i + 1;
      }
      assert models[..i] == models;
      if refreshModelCounter < currentRefreshModelCount {
        refreshModelCounter := refreshModelCounter + 1;
      } else {
        refreshModelCounter := 0;
      }
    }
  }
}
