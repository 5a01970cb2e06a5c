/**
 * The deep-click cycling of RealtimeCSG's FindClickWorldIntersection
 * (Assets/Plugins/RealtimeCSG/Editor/Scripts/Data/SceneQuery/SceneQueryUtility.cs): clicking
 * the same screen position of the same scene view again selects the next intersection of the
 * click ray, behind the one selected before; a new position starts over from the closest
 * intersection on a visible layer.
 *
 * The static fields of the deep-click state are the fields of a class. The multi-intersection
 * query the click runs is an input (None when it finds nothing), as are the camera's presence,
 * the visible-layer mask and the layer of each object. The previous screen position is None for
 * the source's (+infinity, +infinity), which no click position equals.
 */
module CSGDeepClick {
  import opened Wrappers
  import opened Geometry
  import opened CSGHierarchy
  import opened CSGIntersection

  /** The visible-layer mask and the layer of each object. */
  datatype LayerView = LayerView(visibleLayers: bv32, layerOf: ObjectId -> int)

  predicate Visible(x: Intersection, v: LayerView) {
    LayerVisible(v.layerOf(x.gameObject), v.visibleLayers)
  }

  /** What the cycling loop removes: an intersection on a visible layer without a brush. */
  predicate Removable(x: Intersection, v: LayerView) {
    Visible(x, v) && x.brush.None?
  }

  /** The intersections that survive the cycling loop, in order. */
  function Kept(s: seq<Intersection>, v: LayerView): seq<Intersection> {
    if s == [] then [] else (if Removable(s[0], v) then [] else [s[0]]) + Kept(s[1..], v)
  }

  /** The number of removable intersections. */
  function RemovedCount(s: seq<Intersection>, v: LayerView): nat {
    if s == [] then 0 else RemovedCount(s[..|s| - 1], v) + (if Removable(s[|s| - 1], v) then 1 else 0)
  }

  function Min(a: int, b: int): int {
    if a <= b then a else b
  }

  lemma {:induction false} KeptAppend(a: seq<Intersection>, b: seq<Intersection>, v: LayerView)
    ensures Kept(a + b, v) == Kept(a, v) + Kept(b, v)
  {
    if a == [] {
      assert a + b == b;
    } else {
      var head := if Removable(a[0], v) then [] else [a[0]];
      assert Kept(a + b, v) == head + Kept(a[1..] + b, v) by {
        assert (a + b)[1..] == a[1..] + b && (a + b)[0] == a[0];
      }
      KeptAppend(a[1..], b, v);
      assert head + (Kept(a[1..], v) + Kept(b, v)) == (head + Kept(a[1..], v)) + Kept(b, v);
    }
  }

  /** Exactly the removable intersections go: the kept ones are the others, in order. */
  lemma {:induction false} KeptLength(s: seq<Intersection>, v: LayerView)
    ensures |Kept(s, v)| == |s| - RemovedCount(s, v)
    ensures forall x :: x in Kept(s, v) <==> x in s && !Removable(x, v)
  {
    if s != [] {
      var init, last := s[..|s| - 1], s[|s| - 1];
      KeptLength(init, v);
      KeptAppend(init, [last], v);
      assert s == init + [last];
      assert Kept([last], v) == (if Removable(last, v) then [] else [last]) + Kept([], v);
    }
  }

  /** The survivors of a suffix: its first element unless removable, then those of the rest. */
  lemma KeptStep(s: seq<Intersection>, i: nat, v: LayerView)
    requires i < |s|
    ensures Kept(s[i..], v) == (if Removable(s[i], v) then [] else [s[i]]) + Kept(s[i + 1..], v)
  {
    assert s[i..][1..] == s[i + 1..];
  }

  /** Between two prefixes, the count grows by at most the number of elements added. */
  lemma {:induction false} RemovedCountBetween(s: seq<Intersection>, a: nat, b: nat, v: LayerView)
    requires a <= b <= |s|
    ensures RemovedCount(s[..a], v) <= RemovedCount(s[..b], v) <= RemovedCount(s[..a], v) + (b - a)
    decreases b
  {
    if a < b {
      RemovedCountBetween(s, a, b - 1, v);
      assert s[..b][..b - 1] == s[..b - 1];
    }
  }

  /**
   * The state of the backward removal loop once slots k and above are done: the list is the
   * untouched front followed by the survivors of the back, and the selection has moved down
   * once per removal in the back that lay at or before it.
   */
  predicate RemovalAfter(hits: seq<Intersection>, d: int, v: LayerView, k: nat, cur: seq<Intersection>, index: int)
    requires k <= |hits| && -1 <= d
  {
    var m := Min(d + 1, |hits|);
    && cur == hits[..k] + Kept(hits[k..], v)
    && index == d - (RemovedCount(hits[..m], v) - RemovedCount(hits[..Min(k, m)], v))
  }

  lemma RemovalStart(hits: seq<Intersection>, d: int, v: LayerView)
    requires -1 <= d
    ensures RemovalAfter(hits, d, v, |hits|, hits, d)
  {
    assert hits[..|hits|] == hits && hits[|hits|..] == [];
  }

  lemma RemovalEnd(hits: seq<Intersection>, d: int, v: LayerView, cur: seq<Intersection>, index: int)
    requires -1 <= d && RemovalAfter(hits, d, v, 0, cur, index)
    ensures cur == Kept(hits, v) && index == d - RemovedCount(hits[..Min(d + 1, |hits|)], v)
  {
    assert hits[..0] == [] && hits[0..] == hits;
    assert hits[..0] + Kept(hits[0..], v) == Kept(hits, v);
  }

  /**
   * One turn of the backward removal loop at slot i: the list's slot i holds hits[i], and
   * removing it, or keeping it, leaves the list for slot i - 1.
   */
  lemma BackwardStep(hits: seq<Intersection>, i: nat, v: LayerView)
    requires i < |hits|
    ensures var cur := hits[..i + 1] + Kept(hits[i + 1..], v);
            && i < |cur| && cur[i] == hits[i]
            && (Removable(hits[i], v) ==> cur[..i] + cur[i + 1..] == hits[..i] + Kept(hits[i..], v))
            && (!Removable(hits[i], v) ==> cur == hits[..i] + Kept(hits[i..], v))
  {
    var cur := hits[..i + 1] + Kept(hits[i + 1..], v);
    KeptStep(hits, i, v);
    assert hits[..i + 1] == hits[..i] + [hits[i]];
    assert cur[..i] == hits[..i];
    assert cur[i + 1..] == Kept(hits[i + 1..], v);
  }

  /**
   * The selected index in the same turn: it moves down exactly when a removed intersection
   * lies at or before the selection.
   */
  lemma BackwardIndexStep(hits: seq<Intersection>, i: nat, d: int, v: LayerView, index: int)
    requires i < |hits| && -1 <= d
    requires var m := Min(d + 1, |hits|);
             index == d - (RemovedCount(hits[..m], v) - RemovedCount(hits[..Min(i + 1, m)], v))
    ensures var m := Min(d + 1, |hits|);
            var index' := if Removable(hits[i], v) && i <= index then index - 1 else index;
            index' == d - (RemovedCount(hits[..m], v) - RemovedCount(hits[..Min(i, m)], v))
  {
    var m := Min(d + 1, |hits|);
    assert hits[..i + 1][..i] == hits[..i];
    if i < m {
      RemovedCountBetween(hits, i + 1, m, v);
    }
  }

  /**
   * An intersection that survives keeps its place among the survivors: it moves down by the
   * number of removed intersections up to it.
   */
  lemma KeptIndex(s: seq<Intersection>, d: nat, v: LayerView)
    requires d < |s| && !Removable(s[d], v)
    ensures 0 <= d - RemovedCount(s[..d + 1], v) < |Kept(s, v)|
    ensures Kept(s, v)[d - RemovedCount(s[..d + 1], v)] == s[d]
  {
    RemovedCountBetween(s, 0, d, v);
    assert s[..0] == [];
    assert s == s[..d] + s[d..];
    KeptAppend(s[..d], s[d..], v);
    KeptLength(s[..d], v);
    assert s[d..][1..] == s[d + 1..];
    assert Kept(s[d..], v) == [s[d]] + Kept(s[d + 1..], v);
    assert s[..d + 1][..d] == s[..d];
  }

  /** The deep-click state: the intersections of the last click, the click's position and view, and the index selected. */
  datatype DeepState = DeepState(intersections: Option<seq<Intersection>>, prevScreenPos: Option<Vec2>,
                                 prevSceneView: Option<nat>, deepIndex: int)

  /** ResetDeepClick's state. */
  const ResetState := DeepState(None, None, None, 0)

  /** The intersection an index selects, as the code reads it: none at index 0 or out of range. */
  function AtIndex(hits: seq<Intersection>, index: int): Option<Intersection> {
    if 0 < index < |hits| then Some(hits[index]) else None
  }

  /**
   * A repeated click: with more than one intersection the removable ones go and the index
   * follows; with at most one left the state resets; otherwise the index moves one on, wrapping,
   * and the intersection there is selected unless it is none or the one selected before, which
   * also resets.
   */
  function CycleStep(s: DeepState, screenPos: Vec2, sceneView: Option<nat>, v: LayerView): (DeepState, Option<Intersection>)
    requires s.intersections.Some? && s.deepIndex >= 0
  {
    var hits := s.intersections.value;
    var prev := AtIndex(hits, s.deepIndex);
    var kept := if |hits| > 1 then Kept(hits, v) else hits;
    var index := if |hits| > 1 then s.deepIndex - RemovedCount(hits[..Min(s.deepIndex + 1, |hits|)], v) else s.deepIndex;
    if |kept| <= 1 then (ResetState, None)
    else
      var next := (index + 1) % |kept|;
      var current := AtIndex(kept, next);
      if current != prev && current.Some? then (DeepState(Some(kept), Some(screenPos), sceneView, next), current)
      else (ResetState, None)
  }

  /** The index of the first intersection on a visible layer. */
  function FirstVisible(hits: seq<Intersection>, v: LayerView): (r: Option<nat>)
    ensures r.Some? ==> r.value < |hits| && Visible(hits[r.value], v) && forall j :: 0 <= j < r.value ==> !Visible(hits[j], v)
    ensures r.None? ==> forall j :: 0 <= j < |hits| ==> !Visible(hits[j], v)
  {
    if hits == [] then None
    else if Visible(hits[0], v) then Some(0)
    else match FirstVisible(hits[1..], v)
      case None => None
      case Some(i) => Some(i + 1)
  }

  /**
   * A click at a new position: the multi-intersection query's result becomes the state's
   * intersections and the first one on a visible layer is selected at index 0; when the query
   * finds nothing the state resets.
   */
  function FreshStep(s: DeepState, screenPos: Vec2, sceneView: Option<nat>, v: LayerView,
                     multi: Option<seq<Intersection>>): (DeepState, Option<Intersection>)
  {
    match multi
    case None => (ResetState, None)
    case Some(hits) =>
      match FirstVisible(hits, v)
      case None => (s.(intersections := Some(hits)), None)
      case Some(i) => (DeepState(Some(hits), Some(screenPos), sceneView, 0), Some(hits[i]))
  }

  /** The deep-click part of a click: a repeated click cycles; a click whose position is not the stored one then starts over. */
  function ClickStep(s: DeepState, hasCamera: bool, screenPos: Vec2, sceneView: Option<nat>, v: LayerView,
                     multi: Option<seq<Intersection>>): (DeepState, Option<Intersection>)
    requires s.deepIndex >= 0
  {
    if !hasCamera then (s, None)
    else
      var cycled :=
        if s.prevScreenPos == Some(screenPos) && s.prevSceneView == sceneView && s.intersections.Some?
        then CycleStep(s, screenPos, sceneView, v) else (s, None);
      if cycled.0.prevScreenPos != Some(screenPos) then FreshStep(cycled.0, screenPos, sceneView, v, multi)
      else cycled
  }

  /**
   * The cycling keeps the index in range: after the removals it is at least -1, so the C#
   * remainder of index + 1 is the Euclidean one; a selection is the intersection at the new
   * index, which is neither 0 nor past the end; without one the state resets.
   */
  lemma CycleFacts(s: DeepState, screenPos: Vec2, sceneView: Option<nat>, v: LayerView)
    requires s.intersections.Some? && s.deepIndex >= 0
    ensures var hits := s.intersections.value;
            |hits| > 1 ==> s.deepIndex - RemovedCount(hits[..Min(s.deepIndex + 1, |hits|)], v) >= -1
    ensures var (t, found) := CycleStep(s, screenPos, sceneView, v);
            && t.deepIndex >= 0
            && (found.None? ==> t == ResetState)
            && (found.Some? ==>
                  && t.intersections.Some? && 0 < t.deepIndex < |t.intersections.value|
                  && found == Some(t.intersections.value[t.deepIndex])
                  && t.prevScreenPos == Some(screenPos) && t.prevSceneView == sceneView)
  {
    var hits := s.intersections.value;
    if |hits| > 1 {
      var m := Min(s.deepIndex + 1, |hits|);
      RemovedCountBetween(hits, 0, m, v);
      assert hits[..0] == [];
    }
  }

  /**
   * Cycling moves past the intersection selected before: when it survives the removals, it sits
   * at the new index before the increment, and a selection is the surviving intersection right
   * after it, wrapping to the front.
   */
  lemma CycleSelectsNext(s: DeepState, screenPos: Vec2, sceneView: Option<nat>, v: LayerView)
    requires s.intersections.Some? && 0 <= s.deepIndex < |s.intersections.value|
    requires |s.intersections.value| > 1 && !Removable(s.intersections.value[s.deepIndex], v)
    ensures var hits, d := s.intersections.value, s.deepIndex;
            var kept, k := Kept(hits, v), d - RemovedCount(hits[..d + 1], v);
            var found := CycleStep(s, screenPos, sceneView, v).1;
            && 0 <= k < |kept| && kept[k] == hits[d]
            && (found.Some? ==> found == Some(kept[(k + 1) % |kept|]))
  {
    var hits, d := s.intersections.value, s.deepIndex;
    KeptIndex(hits, d, v);
    RemovedCountBetween(hits, 0, d + 1, v);
    assert hits[..0] == [];
  }

  /** A click at a new position selects the first intersection on a visible layer, at index 0. */
  lemma FreshSelectsFirstVisible(s: DeepState, screenPos: Vec2, sceneView: Option<nat>, v: LayerView,
                                 multi: Option<seq<Intersection>>)
    ensures var (t, found) := FreshStep(s, screenPos, sceneView, v, multi);
            && (multi.None? ==> t == ResetState && found.None?)
            && (multi.Some? ==> t.intersections == multi)
            && (found.Some? ==>
                  && multi.Some? && found.value in multi.value && Visible(found.value, v) && t.deepIndex == 0
                  && (forall j :: 0 <= j < |multi.value| && multi.value[j] != found.value ==>
                        Visible(multi.value[j], v) ==> exists k :: 0 <= k < j && multi.value[k] == found.value)
                  && t.prevScreenPos == Some(screenPos))
            && (multi.Some? && found.None? ==> forall x :: x in multi.value ==> !Visible(x, v))
  {
    if multi.Some? {
      var r := FirstVisible(multi.value, v);
      if r.Some? {
        forall j | 0 <= j < |multi.value| && multi.value[j] != multi.value[r.value] && Visible(multi.value[j], v)
          ensures exists k :: 0 <= k < j && multi.value[k] == multi.value[r.value]
        {
          assert r.value < j;
        }
      }
    }
  }

  /** The deep-click state of the editor. */
  class DeepClick {
    var deepClickIntersections: Option<seq<Intersection>>
    var prevScreenPos: Option<Vec2>
    var prevSceneView: Option<nat>
    var deepIndex: int

    function State(): DeepState
      reads this
    {
      DeepState(deepClickIntersections, prevScreenPos, prevSceneView, deepIndex)
    }

    /** The index is never negative between clicks. */
    predicate Valid()
      reads this
    {
      deepIndex >= 0
    }

    constructor ()
      ensures Valid() && State() == ResetState
    {
      deepClickIntersections, prevScreenPos, prevSceneView, deepIndex := None, None, None, 0;
    }

    method ResetDeepClick()
      modifies this
      ensures Valid() && State() == ResetState
    {
      deepClickIntersections := None;
      prevSceneView := None;
      prevScreenPos := None;
      deepIndex := 0;
    }

    /**
     * The removal loop, from the back: a removable intersection is removed, and the index goes
     * down by one when the removal is at or before it.
     */
    method RemoveBrushless(v: LayerView)
      requires Valid() && deepClickIntersections.Some?
      modifies this`deepClickIntersections, this`deepIndex
      ensures var hits, d := old(deepClickIntersections.value), old(deepIndex);
              && deepClickIntersections == Some(Kept(hits, v))
              && deepIndex == d - RemovedCount(hits[..Min(d + 1, |hits|)], v)
    {
      ghost var hits, d := deepClickIntersections.value, deepIndex;
      var i := |deepClickIntersections.value| - 1;
      RemovalStart(hits, d, v);
      while i >= 0
        invariant -1 <= i < |hits|
        invariant deepClickIntersections.Some?
        invariant RemovalAfter(hits, d, v, i + 1, deepClickIntersections.value, deepIndex)
        decreases i
      {
        RemoveIfBrushless(v, hits, d, i);
        i := i - 1;
      }
      RemovalEnd(hits, d, v, deepClickIntersections.value, deepIndex);
    }

    /** One turn of RemoveBrushless: slot i goes when it is removable, and the selection follows. */
    method RemoveIfBrushless(v: LayerView, ghost hits: seq<Intersection>, ghost d: int, i: nat)
      requires i < |hits| && -1 <= d && deepClickIntersections.Some?
      requires RemovalAfter(hits, d, v, i + 1, deepClickIntersections.value, deepIndex)
      modifies this`deepClickIntersections, this`deepIndex
      ensures deepClickIntersections.Some?
      ensures RemovalAfter(hits, d, v, i, deepClickIntersections.value, deepIndex)
    {
      BackwardStep(hits, i, v);
      BackwardIndexStep(hits, i, d, v, deepIndex);
      var arr := deepClickIntersections.value;
      if LayerVisible(v.layerOf(arr[i].gameObject), v.visibleLayers) && arr[i].brush.None? {
        deepClickIntersections := Some(arr[..i] + arr[i + 1..]);
        if i <= deepIndex {
          deepIndex := deepIndex - 1;
        }
      }
    }

    /** A repeated click: the CycleStep outcome. */
    method Cycle(screenPos: Vec2, sceneView: Option<nat>, v: LayerView) returns (found: Option<Intersection>)
      requires Valid() && deepClickIntersections.Some?
      modifies this
      ensures Valid()
      ensures (State(), found) == CycleStep(old(State()), screenPos, sceneView, v)
    {
      ghost var s := State();
      CycleFacts(s, screenPos, sceneView, v);
      found := None;
      var prevIntersection := AtIndex(deepClickIntersections.value, deepIndex);
      if |deepClickIntersections.value| > 1 {
        RemoveBrushless(v);
      }
      if |deepClickIntersections.value| <= 1 {
        ResetDeepClick();
      } else {
        deepIndex := (deepIndex + 1) % |deepClickIntersections.value|;
        var currentIntersection := AtIndex(deepClickIntersections.value, deepIndex);
        if currentIntersection != prevIntersection && currentIntersection.Some? {
          found := currentIntersection;
          prevScreenPos := Some(screenPos);
          prevSceneView := sceneView;
        } else {
          ResetDeepClick();
        }
      }
    }

    /** A click at a new position: the FreshStep outcome. */
    method Fresh(screenPos: Vec2, sceneView: Option<nat>, v: LayerView, multi: Option<seq<Intersection>>)
      returns (found: Option<Intersection>)
      requires Valid()
      modifies this
      ensures Valid()
      ensures (State(), found) == FreshStep(old(State()), screenPos, sceneView, v, multi)
    {
      found := None;
      if multi.Some? {
        deepClickIntersections := multi;
        var hits := multi.value;
        for i := 0 to |hits|
          invariant found.None? && State() == old(State()).(intersections := multi)
          invariant forall j :: 0 <= j < i ==> !Visible(hits[j], v)
        {
          if !LayerVisible(v.layerOf(hits[i].gameObject), v.visibleLayers) {
            continue;
          }
          deepIndex := 0;
          found := Some(hits[i]);
          prevScreenPos := Some(screenPos);
          prevSceneView := sceneView;
          assert FirstVisible(hits, v) == Some(i);
          return;
        }
      } else {
        ResetDeepClick();
      }
    }

    /**
     * The deep-click part of FindClickWorldIntersection: without a camera nothing changes and
     * nothing is found; otherwise the ClickStep outcome, as the found object and the model of the
     * selected intersection.
     */
    method FindClickDeepIntersection(hasCamera: bool, screenPos: Vec2, sceneView: Option<nat>, v: LayerView,
                                     multi: Option<seq<Intersection>>)
      returns (foundObject: Option<ObjectId>, intersectionModel: Option<nat>)
      requires Valid()
      modifies this
      ensures Valid()
      ensures var (t, found) := ClickStep(old(State()), hasCamera, screenPos, sceneView, v, multi);
              && State() == t
              && foundObject == (if found.Some? then Some(found.value.gameObject) else None)
              && intersectionModel == (if found.Some? then found.value.model else None)
    {
      foundObject, intersectionModel := None, None;
      if !hasCamera {
        return;
      }
      var found := None;
      if prevScreenPos == Some(screenPos) && prevSceneView == sceneView && deepClickIntersections.Some? {
        found := Cycle(screenPos, sceneView, v);
      }
      if prevScreenPos != Some(screenPos) {
        found := Fresh(screenPos, sceneView, v, multi);
      }
      if found.Some? {
        foundObject, intersectionModel := Some(found.value.gameObject), found.value.model;
      }
    }
  }
}
