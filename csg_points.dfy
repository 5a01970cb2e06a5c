/**
 * GetPointsInFrustum of RealtimeCSG's SceneQueryUtility
 * (Assets/Plugins/RealtimeCSG/Editor/Scripts/Data/SceneQuery/SceneQueryUtility.cs): the
 * control points of the given brushes that lie inside a selection frustum of six planes.
 *
 * A brush's control mesh state is its world points and, for the scene view asked about, which
 * of them are backfaced; a missing state (the source's null) is skipped. MathConstants is not
 * part of this model, so DistanceEpsilon is a parameter.
 */
module CSGPoints {
  import opened Wrappers
  import opened Geometry

  /** Unity's Plane: a normal and the distance of the origin along it. */
  datatype Plane = Plane(normal: Vec3, distance: real)

  /** Plane.GetDistanceToPoint: the signed distance of p from the plane. */
  function DistanceToPoint(plane: Plane, p: Vec3): real {
    plane.normal.x * p.x + plane.normal.y * p.y + plane.normal.z * p.z + plane.distance
  }

  /** The part of a ControlMeshState the query reads, for one scene view. */
  datatype ControlMeshState = ControlMeshState(worldPoints: seq<Vec3>, worldPointBackfaced: seq<bool>)

  /** PointSelection: a point of a brush, by the brush's and the point's index. */
  datatype PointSelection = PointSelection(brushIndex: nat, pointIndex: nat)

  /** A point is inside when no one of the six planes has it further out than epsilon. */
  predicate InsideFrustum(planes: seq<Plane>, point: Vec3, distanceEpsilon: real)
    requires |planes| >= 6
  {
    forall i :: 0 <= i < 6 ==> DistanceToPoint(planes[i], point) <= distanceEpsilon
  }

  /** The arrays the query indexes are long enough: a state per brush, a backfaced flag per point when asked. */
  predicate Indexable(brushCount: nat, states: seq<Option<ControlMeshState>>, ignoreHiddenPoints: bool) {
    && |states| >= brushCount
    && (ignoreHiddenPoints ==>
          forall t :: 0 <= t < brushCount && states[t].Some? ==>
            |states[t].value.worldPointBackfaced| >= |states[t].value.worldPoints|)
  }

  /** Point p of a state is selected: not backfaced when hidden points are ignored, and inside. */
  predicate Selected(planes: seq<Plane>, state: ControlMeshState, p: nat, ignoreHiddenPoints: bool, distanceEpsilon: real)
    requires |planes| >= 6
    requires p < |state.worldPoints|
    requires ignoreHiddenPoints ==> |state.worldPointBackfaced| >= |state.worldPoints|
  {
    && !(ignoreHiddenPoints && state.worldPointBackfaced[p])
    && InsideFrustum(planes, state.worldPoints[p], distanceEpsilon)
  }

  /** The selections of brush t among its first n points, in point order. */
  function BrushSelection(planes: seq<Plane>, t: nat, state: ControlMeshState, n: nat,
                          ignoreHiddenPoints: bool, distanceEpsilon: real): seq<PointSelection>
    requires |planes| >= 6
    requires n <= |state.worldPoints|
    requires ignoreHiddenPoints ==> |state.worldPointBackfaced| >= |state.worldPoints|
  {
    if n == 0 then []
    else
      BrushSelection(planes, t, state, n - 1, ignoreHiddenPoints, distanceEpsilon)
      + (if Selected(planes, state, n - 1, ignoreHiddenPoints, distanceEpsilon) then [PointSelection(t, n - 1)] else [])
  }

  /** The selections of the first n brushes, brush by brush. */
  function FrustumSelection(planes: seq<Plane>, states: seq<Option<ControlMeshState>>, n: nat,
                            ignoreHiddenPoints: bool, distanceEpsilon: real): seq<PointSelection>
    requires |planes| >= 6
    requires Indexable(n, states, ignoreHiddenPoints)
  {
    if n == 0 then []
    else
      var before := FrustumSelection(planes, states, n - 1, ignoreHiddenPoints, distanceEpsilon);
      if states[n - 1].None? then before
      else before + BrushSelection(planes, n - 1, states[n - 1].value, |states[n - 1].value.worldPoints|,
                                   ignoreHiddenPoints, distanceEpsilon)
  }

  /** Brush-major, then point order, with no selection twice. */
  predicate LexBefore(a: PointSelection, b: PointSelection) {
    a.brushIndex < b.brushIndex || (a.brushIndex == b.brushIndex && a.pointIndex < b.pointIndex)
  }

  predicate Ordered(s: seq<PointSelection>) {
    forall i, j :: 0 <= i < j < |s| ==> LexBefore(s[i], s[j])
  }

  /** A brush's selection holds exactly its selected points below n, in increasing point order. */
  lemma {:induction false} BrushSelectionFacts(planes: seq<Plane>, t: nat, state: ControlMeshState, n: nat,
                                               ignoreHiddenPoints: bool, distanceEpsilon: real)
    requires |planes| >= 6
    requires n <= |state.worldPoints|
    requires ignoreHiddenPoints ==> |state.worldPointBackfaced| >= |state.worldPoints|
    ensures var r := BrushSelection(planes, t, state, n, ignoreHiddenPoints, distanceEpsilon);
            && (forall s :: s in r <==>
                  s.brushIndex == t && s.pointIndex < n && Selected(planes, state, s.pointIndex, ignoreHiddenPoints, distanceEpsilon))
            && Ordered(r)
  {
    if n > 0 {
      BrushSelectionFacts(planes, t, state, n - 1, ignoreHiddenPoints, distanceEpsilon);
    }
  }

  /**
   * The frustum selection holds exactly the selected points of the brushes below n that have
   * a state, brush-major and then in point order.
   */
  lemma FrustumSelectionFacts(planes: seq<Plane>, states: seq<Option<ControlMeshState>>, n: nat,
                               ignoreHiddenPoints: bool, distanceEpsilon: real)
    requires |planes| >= 6
    requires Indexable(n, states, ignoreHiddenPoints)
    ensures var r := FrustumSelection(planes, states, n, ignoreHiddenPoints, distanceEpsilon);
            && (forall s :: s in r <==>
                  && s.brushIndex < n && states[s.brushIndex].Some?
                  && s.pointIndex < |states[s.brushIndex].value.worldPoints|
                  && Selected(planes, states[s.brushIndex].value, s.pointIndex, ignoreHiddenPoints, distanceEpsilon))
            && Ordered(r)
            && (forall s :: s in r ==> s.brushIndex < n)
  {
    FrustumSelectionMembers(planes, states, n, ignoreHiddenPoints, distanceEpsilon);
    FrustumSelectionOrdered(planes, states, n, ignoreHiddenPoints, distanceEpsilon);
  }

  /** The frustum selection holds exactly the selected points of the brushes below n that have a state. */
  lemma {:induction false} FrustumSelectionMembers(planes: seq<Plane>, states: seq<Option<ControlMeshState>>, n: nat,
                                                   ignoreHiddenPoints: bool, distanceEpsilon: real)
    requires |planes| >= 6
    requires Indexable(n, states, ignoreHiddenPoints)
    ensures var r := FrustumSelection(planes, states, n, ignoreHiddenPoints, distanceEpsilon);
            forall s :: s in r <==>
              && s.brushIndex < n && states[s.brushIndex].Some?
              && s.pointIndex < |states[s.brushIndex].value.worldPoints|
              && Selected(planes, states[s.brushIndex].value, s.pointIndex, ignoreHiddenPoints, distanceEpsilon)
  {
    if n > 0 {
      FrustumSelectionMembers(planes, states, n - 1, ignoreHiddenPoints, distanceEpsilon);
      if states[n - 1].Some? {
        var st := states[n - 1].value;
        BrushSelectionFacts(planes, n - 1, st, |st.worldPoints|, ignoreHiddenPoints, distanceEpsilon);
      }
    }
  }

  /** The frustum selection is brush-major, then in point order. */
  lemma {:induction false} FrustumSelectionOrdered(planes: seq<Plane>, states: seq<Option<ControlMeshState>>, n: nat,
                                                   ignoreHiddenPoints: bool, distanceEpsilon: real)
    requires |planes| >= 6
    requires Indexable(n, states, ignoreHiddenPoints)
    ensures Ordered(FrustumSelection(planes, states, n, ignoreHiddenPoints, distanceEpsilon))
  {
    if n > 0 && states[n - 1].Some? {
      var before := FrustumSelection(planes, states, n - 1, ignoreHiddenPoints, distanceEpsilon);
      var st := states[n - 1].value;
      var added := BrushSelection(planes, n - 1, st, |st.worldPoints|, ignoreHiddenPoints, distanceEpsilon);
      FrustumSelectionOrdered(planes, states, n - 1, ignoreHiddenPoints, distanceEpsilon);
      FrustumSelectionMembers(planes, states, n - 1, ignoreHiddenPoints, distanceEpsilon);
      BrushSelectionFacts(planes, n - 1, st, |st.worldPoints|, ignoreHiddenPoints, distanceEpsilon);
      OrderedAppend(before, added);
    } else if n > 0 {
      FrustumSelectionOrdered(planes, states, n - 1, ignoreHiddenPoints, distanceEpsilon);
    }
  }

  /** Two ordered runs, the first wholly before the second, make an ordered run. */
  lemma OrderedAppend(a: seq<PointSelection>, b: seq<PointSelection>)
    requires Ordered(a) && Ordered(b)
    requires forall x, y :: x in a && y in b ==> LexBefore(x, y)
    ensures Ordered(a + b)
  {
    forall i, j | 0 <= i < j < |a + b| ensures LexBefore((a + b)[i], (a + b)[j]) {
      if j < |a| {
        assert (a + b)[i] == a[i] && (a + b)[j] == a[j];
      } else if i >= |a| {
        assert (a + b)[i] == b[i - |a|] && (a + b)[j] == b[j - |a|];
      } else {
        assert (a + b)[i] == a[i] && (a + b)[j] == b[j - |a|];
      }
    }
  }

  /** The inner test of the query: false at the first plane the point lies beyond. */
  method PointInFrustum(planes: seq<Plane>, point: Vec3, distanceEpsilon: real) returns (found: bool)
    requires |planes| >= 6
    ensures found == InsideFrustum(planes, point, distanceEpsilon)
  {
    found := true;
    for i := 0 to 6
      invariant forall j :: 0 <= j < i ==> DistanceToPoint(planes[j], point) <= distanceEpsilon
    {
      if !(DistanceToPoint(planes[i], point) > distanceEpsilon) {
        continue;
      }
      found := false;
      break;
    }
  }

  /**
   * GetPointsInFrustum: every selected point of every brush with a state, in brush-major then
   * point order.
   */
  method GetPointsInFrustum(planes: seq<Plane>, brushCount: nat, controlMeshStates: seq<Option<ControlMeshState>>,
                            ignoreHiddenPoints: bool, distanceEpsilon: real)
    returns (pointSelection: seq<PointSelection>)
    requires |planes| >= 6
    requires Indexable(brushCount, controlMeshStates, ignoreHiddenPoints)
    ensures pointSelection == FrustumSelection(planes, controlMeshStates, brushCount, ignoreHiddenPoints, distanceEpsilon)
  {
    pointSelection := [];
    for t := 0 to brushCount
      invariant pointSelection == FrustumSelection(planes, controlMeshStates, t, ignoreHiddenPoints, distanceEpsilon)
    {
      var targetMeshState := controlMeshStates[t];
      if targetMeshState.None? {
        continue;
      }
      var state := targetMeshState.value;
      ghost var before := pointSelection;
      for p := 0 to |state.worldPoints|
        invariant pointSelection == before + BrushSelection(planes, t, state, p, ignoreHiddenPoints, distanceEpsilon)
      {
        if ignoreHiddenPoints && state.worldPointBackfaced[p] {
          continue;
        }
        var found := PointInFrustum(planes, state.worldPoints[p], distanceEpsilon);
        if found {
          pointSelection := pointSelection + [PointSelection(t, p)];
        }
      }
    }
  }
}
