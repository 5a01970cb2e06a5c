/**
 * The selection part of RealtimeCSG's world-intersection queries
 * (Assets/Plugins/RealtimeCSG/Editor/Scripts/Data/SceneQuery/SceneQueryUtility.cs):
 * FindWorldIntersection picks the closest selectable hit of a ray over all qualifying models;
 * FindMultiWorldIntersection keeps the closest hit per top-most group and sorts them by distance.
 *
 * The ray casts into the CSG models are external: their results are inputs, as functions of the
 * models they are given and of the "ignore invisible surfaces" flag. So is
 * BrushTraits.IsSurfaceSelectable, which is not part of this model. The brush of a hit object is
 * the object itself when it carries a CSGBrush component. Tools.visibleLayers is a 32-bit mask.
 */
module CSGIntersection {
  import opened Wrappers
  import opened CSGHierarchy

  /** LegacyBrushIntersection: the hit object and surface, the distance along the ray, and the brush and model stamped on it. */
  datatype Intersection = Intersection(gameObject: ObjectId, surfaceIndex: int, distance: real,
                                       brush: Option<ObjectId>, model: Option<nat>)

  /** The part of a CSGModel the model filter reads; `alive` is false for a destroyed model. */
  datatype ModelInfo = ModelInfo(alive: bool, activeAndEnabled: bool, layer: int, willRender: bool, selected: bool)

  /** The editor state both queries read. */
  datatype Query = Query(models: seq<ModelInfo>, visibleLayers: bv32, showCulledSurfaces: bool,
                         isSurfaceSelectable: (Option<ObjectId>, int) -> bool)

  /** `((1 << layer) & visibleLayers) != 0`, with C#'s shift count taken modulo 32. */
  predicate LayerVisible(layer: int, visibleLayers: bv32) {
    ((1 as bv32) << (layer % 32)) & visibleLayers != 0
  }

  /** A model the queries cast into: alive, active, on a visible layer, and rendering or selected when unrenderables are ignored. */
  predicate ModelQualifies(m: ModelInfo, visibleLayers: bv32, ignoreUnrenderables: bool) {
    && m.alive && m.activeAndEnabled && LayerVisible(m.layer, visibleLayers)
    && !(ignoreUnrenderables && !m.willRender && !m.selected)
  }

  /** GetComponent<CSGBrush> on a hit object. */
  function BrushOf(h: Hierarchy, o: ObjectId): Option<ObjectId> {
    if h.component(o).CSGBrush? then Some(o) else None
  }

  /** A hit the queries pass over: the code skips it when IsSurfaceSelectable holds. */
  predicate Skipped(q: Query, h: Hierarchy, x: Intersection) {
    q.isSurfaceSelectable(BrushOf(h, x.gameObject), x.surfaceIndex)
  }

  /** The indices of the qualifying models among the first n, in order. */
  function QualifyingModels(q: Query, ignoreUnrenderables: bool, n: nat): (r: seq<nat>)
    requires n <= |q.models|
    ensures forall g: nat :: g in r <==> g < n && ModelQualifies(q.models[g], q.visibleLayers, ignoreUnrenderables)
    ensures forall i :: 0 <= i < |r| ==> r[i] < n
    ensures forall i, j :: 0 <= i < j < |r| ==> r[i] < r[j]
  {
    if n == 0 then []
    else
      QualifyingModels(q, ignoreUnrenderables, n - 1)
      + (if ModelQualifies(q.models[n - 1], q.visibleLayers, ignoreUnrenderables) then [n - 1] else [])
  }

  // ---------------------------------------------------------------- FindWorldIntersection

  /** The index of the hit FindWorldIntersection's scan ends on, if any. */
  function ClosestIndex(q: Query, h: Hierarchy, hits: seq<Intersection>): (r: Option<nat>)
    ensures r.Some? ==> r.value < |hits|
  {
    if hits == [] then None
    else
      var prev := ClosestIndex(q, h, hits[..|hits| - 1]);
      var x := hits[|hits| - 1];
      if prev.Some? && x.distance > hits[prev.value].distance then prev
      else if Skipped(q, h, x) then prev
      else Some(|hits| - 1)
  }

  /**
   * The scan finds nothing exactly when every hit is skipped; otherwise it ends on a hit that is
   * not skipped, as close as every hit that is not skipped, and no later such hit is as close:
   * the last of the closest wins.
   */
  lemma {:induction false} ClosestIsLastMinimum(q: Query, h: Hierarchy, hits: seq<Intersection>)
    ensures var r := ClosestIndex(q, h, hits);
            && (r.None? <==> forall j :: 0 <= j < |hits| ==> Skipped(q, h, hits[j]))
            && (r.Some? ==>
                  && !Skipped(q, h, hits[r.value])
                  && (forall j :: 0 <= j < |hits| && !Skipped(q, h, hits[j]) ==> hits[r.value].distance <= hits[j].distance)
                  && (forall j :: r.value < j < |hits| && !Skipped(q, h, hits[j]) ==> hits[r.value].distance < hits[j].distance))
  {
    if hits != [] {
      var prefix := hits[..|hits| - 1];
      ClosestIsLastMinimum(q, h, prefix);
      assert forall j :: 0 <= j < |prefix| ==> prefix[j] == hits[j];
    }
  }

  /** The first loop of FindWorldIntersection: the qualifying models, in order. */
  method CollectQualifyingModels(q: Query, ignoreUnrenderables: bool) returns (foundModels: seq<nat>)
    ensures foundModels == QualifyingModels(q, ignoreUnrenderables, |q.models|)
  {
    foundModels := [];
    for g := 0 to |q.models|
      invariant foundModels == QualifyingModels(q, ignoreUnrenderables, g)
    {
      var model := q.models[g];
      if !model.alive || !model.activeAndEnabled || !LayerVisible(model.layer, q.visibleLayers) {
        continue;
      }
      if ignoreUnrenderables && !model.willRender && !model.selected {
        continue;
      }
      foundModels := foundModels + [g];
    }
  }

  /** The hit FindWorldIntersection settles on, with its brush stamped on it. */
  function ClosestHit(q: Query, h: Hierarchy, hits: seq<Intersection>): Option<Intersection> {
    match ClosestIndex(q, h, hits)
    case None => None
    case Some(k) => Some(hits[k].(brush := BrushOf(h, hits[k].gameObject)))
  }

  /** The second loop of FindWorldIntersection: a hit replaces the current one unless it is further or skipped. */
  method SelectClosestHit(q: Query, h: Hierarchy, hits: seq<Intersection>) returns (intersection: Option<Intersection>)
    ensures intersection == ClosestHit(q, h, hits)
  {
    intersection := None;
    for i := 0 to |hits|
      invariant intersection == ClosestHit(q, h, hits[..i])
    {
      assert hits[..i + 1][..i] == hits[..i];
      var modelIntersection := hits[i];
      if intersection.Some? && modelIntersection.distance > intersection.value.distance {
        continue;
      }
      var brush := BrushOf(h, modelIntersection.gameObject);
      if q.isSurfaceSelectable(brush, modelIntersection.surfaceIndex) {
        continue;
      }
      intersection := Some(modelIntersection.(brush := brush));
    }
    assert hits[..|hits|] == hits;
  }

  /**
   * FindWorldIntersection: false without a ray caster, without a qualifying model or when the
   * cast fails; otherwise the hit the scan settles on, and false when there is none.
   */
  method FindWorldIntersection(q: Query, h: Hierarchy, hasRayCastMulti: bool,
                               rayCastMulti: (seq<nat>, bool) -> Option<seq<Intersection>>,
                               ignoreInvisibleSurfaces: bool, ignoreUnrenderables: bool)
    returns (found: bool, intersection: Option<Intersection>)
    ensures found == intersection.Some?
    ensures !hasRayCastMulti || QualifyingModels(q, ignoreUnrenderables, |q.models|) == [] ==> !found
    ensures hasRayCastMulti && QualifyingModels(q, ignoreUnrenderables, |q.models|) != [] ==>
              match rayCastMulti(QualifyingModels(q, ignoreUnrenderables, |q.models|),
                                 ignoreInvisibleSurfaces && !q.showCulledSurfaces)
              case None => !found
              case Some(hits) => intersection == ClosestHit(q, h, hits)
  {
    if !hasRayCastMulti {
      return false, None;
    }
    var ignoreInvisible := ignoreInvisibleSurfaces && !q.showCulledSurfaces;
    var foundModels := CollectQualifyingModels(q, ignoreUnrenderables);
    if |foundModels| == 0 {
      return false, None;
    }
    var modelIntersections := rayCastMulti(foundModels, ignoreInvisible);
    if modelIntersections.None? {
      return false, None;
    }
    intersection := SelectClosestHit(q, h, modelIntersections.value);
    found := intersection.Some?;
  }

  // ---------------------------------------------------------------- FindMultiWorldIntersection

  /** A hit offered to the dictionary, under the top-most group of its brush (None for no brush). */
  datatype Candidate = Candidate(key: Option<ObjectId>, hit: Intersection)

  /** GetTopMostGroupForNode of a hit's brush. */
  function TopKey(h: Hierarchy, brush: Option<ObjectId>): Option<ObjectId>
    requires WellFormed(h)
  {
    if brush.None? then None else Some(TopMostFrom(h, h.parent(brush.value), brush.value))
  }

  /** The hits of model g that are not skipped, keyed and stamped with their brush and model. */
  function Considered(q: Query, h: Hierarchy, g: nat, hits: seq<Intersection>): seq<Candidate>
    requires WellFormed(h)
  {
    if hits == [] then []
    else
      var x := hits[|hits| - 1];
      var brush := BrushOf(h, x.gameObject);
      Considered(q, h, g, hits[..|hits| - 1])
      + (if Skipped(q, h, x) then [] else [Candidate(TopKey(h, brush), x.(brush := brush, model := Some(g)))])
  }

  /** What model g contributes: nothing when it does not qualify or its cast fails. */
  function ModelCandidates(q: Query, h: Hierarchy, rayCastIntoModel: (nat, bool) -> Option<seq<Intersection>>,
                           ignoreInvisible: bool, ignoreUnrenderables: bool, g: nat): seq<Candidate>
    requires WellFormed(h)
    requires g < |q.models|
  {
    if !ModelQualifies(q.models[g], q.visibleLayers, ignoreUnrenderables) then []
    else match rayCastIntoModel(g, ignoreInvisible)
      case None => []
      case Some(hits) => Considered(q, h, g, hits)
  }

  /** The candidates of the first n models, model by model and hit by hit. */
  function Candidates(q: Query, h: Hierarchy, rayCastIntoModel: (nat, bool) -> Option<seq<Intersection>>,
                      ignoreInvisible: bool, ignoreUnrenderables: bool, n: nat): seq<Candidate>
    requires WellFormed(h)
    requires n <= |q.models|
  {
    if n == 0 then []
    else
      Candidates(q, h, rayCastIntoModel, ignoreInvisible, ignoreUnrenderables, n - 1)
      + ModelCandidates(q, h, rayCastIntoModel, ignoreInvisible, ignoreUnrenderables, n - 1)
  }

  /** Every candidate has a brush, so no null key reaches the dictionary. */
  predicate NoMissingKey(cs: seq<Candidate>) {
    forall i :: 0 <= i < |cs| ==> cs[i].key.Some?
  }

  /**
   * The dictionary from top-most group to intersection, as its entries in insertion order (a
   * .NET Dictionary that is only added to enumerates in that order).
   */
  function IndexOfKey(entries: seq<Candidate>, key: Option<ObjectId>): (r: Option<nat>)
    ensures r.Some? ==> r.value < |entries| && entries[r.value].key == key
    ensures r.None? ==> forall i :: 0 <= i < |entries| ==> entries[i].key != key
  {
    if entries == [] then None
    else if entries[0].key == key then Some(0)
    else match IndexOfKey(entries[1..], key)
      case None => None
      case Some(k) => Some(k + 1)
  }

  /** The indexer's set: the value of an existing key is replaced in place, a new key is added at the end. */
  function Put(entries: seq<Candidate>, c: Candidate): seq<Candidate> {
    match IndexOfKey(entries, c.key)
    case Some(k) => entries[k := c]
    case None => entries + [c]
  }

  /** A candidate is stored unless its group already holds one at most as far. */
  function Offer(entries: seq<Candidate>, c: Candidate): seq<Candidate> {
    var k := IndexOfKey(entries, c.key);
    if k.Some? && entries[k.value].hit.distance <= c.hit.distance then entries else Put(entries, c)
  }

  /** The dictionary after offering every candidate in order. */
  function Collect(cs: seq<Candidate>): seq<Candidate> {
    if cs == [] then [] else Offer(Collect(cs[..|cs| - 1]), cs[|cs| - 1])
  }

  /** No two entries share a key. */
  predicate DistinctKeys(entries: seq<Candidate>) {
    forall i, j :: 0 <= i < j < |entries| ==> entries[i].key != entries[j].key
  }

  /** No candidate of e's group before position i is as close as e. */
  predicate NoneAsCloseBefore(cs: seq<Candidate>, i: int, e: Candidate) {
    forall i' :: 0 <= i' < i && i' < |cs| && cs[i'].key == e.key ==> cs[i'].hit.distance > e.hit.distance
  }

  /** Every entry is one of the candidates. */
  predicate FromCandidates(cs: seq<Candidate>, entries: seq<Candidate>) {
    forall m :: 0 <= m < |entries| ==> entries[m] in cs
  }

  /** Every candidate's group has an entry. */
  predicate CoversCandidates(cs: seq<Candidate>, entries: seq<Candidate>) {
    forall i :: 0 <= i < |cs| ==> IndexOfKey(entries, cs[i].key).Some?
  }

  /** Each entry is at most as far as every candidate of its group. */
  predicate AsCloseAsAll(cs: seq<Candidate>, entries: seq<Candidate>) {
    forall m, i :: 0 <= m < |entries| && 0 <= i < |cs| && cs[i].key == entries[m].key ==>
      entries[m].hit.distance <= cs[i].hit.distance
  }

  /** The candidate of an entry's group that is as close as the entry, with none as close before it, is the entry. */
  predicate FirstOfClosest(cs: seq<Candidate>, entries: seq<Candidate>) {
    forall m, i ::
      (&& 0 <= m < |entries| && 0 <= i < |cs| && cs[i].key == entries[m].key
       && cs[i].hit.distance <= entries[m].hit.distance && NoneAsCloseBefore(cs, i, entries[m]))
      ==> cs[i] == entries[m]
  }

  /**
   * The dictionary keeps, for every group that got a candidate, one entry: a candidate of that
   * group as close as all the others, and the first of those that close.
   */
  predicate Best(cs: seq<Candidate>, entries: seq<Candidate>) {
    && DistinctKeys(entries)
    && FromCandidates(cs, entries)
    && CoversCandidates(cs, entries)
    && AsCloseAsAll(cs, entries)
    && FirstOfClosest(cs, entries)
  }

  /** A candidate no closer than its group's entry leaves the dictionary as it was. */
  lemma OfferKeeps(cs: seq<Candidate>, entries: seq<Candidate>, c: Candidate, k: nat)
    requires Best(cs, entries)
    requires k < |entries| && entries[k].key == c.key && entries[k].hit.distance <= c.hit.distance
    ensures Best(cs + [c], entries)
  {
    OfferKeepsCovers(cs, entries, c, k);
    OfferKeepsClosest(cs, entries, c, k);
    OfferKeepsFirst(cs, entries, c, k);
  }

  lemma OfferKeepsCovers(cs: seq<Candidate>, entries: seq<Candidate>, c: Candidate, k: nat)
    requires DistinctKeys(entries) && FromCandidates(cs, entries) && CoversCandidates(cs, entries)
    requires k < |entries| && entries[k].key == c.key
    ensures FromCandidates(cs + [c], entries) && CoversCandidates(cs + [c], entries)
  {
    var cs' := cs + [c];
    forall i | 0 <= i < |cs'| ensures IndexOfKey(entries, cs'[i].key).Some? {
      if i < |cs| {
        assert cs'[i] == cs[i];
      }
    }
  }

  lemma OfferKeepsClosest(cs: seq<Candidate>, entries: seq<Candidate>, c: Candidate, k: nat)
    requires DistinctKeys(entries) && AsCloseAsAll(cs, entries)
    requires k < |entries| && entries[k].key == c.key && entries[k].hit.distance <= c.hit.distance
    ensures AsCloseAsAll(cs + [c], entries)
  {
    var cs' := cs + [c];
    forall m, i | 0 <= m < |entries| && 0 <= i < |cs'| && cs'[i].key == entries[m].key
      ensures entries[m].hit.distance <= cs'[i].hit.distance
    {
      if i < |cs| {
        assert cs'[i] == cs[i];
      }
    }
  }

  lemma OfferKeepsFirst(cs: seq<Candidate>, entries: seq<Candidate>, c: Candidate, k: nat)
    requires FromCandidates(cs, entries) && FirstOfClosest(cs, entries)
    requires k < |entries| && entries[k].key == c.key && entries[k].hit.distance <= c.hit.distance
    ensures FirstOfClosest(cs + [c], entries)
  {
    var cs' := cs + [c];
    forall m | 0 <= m < |entries| ensures !NoneAsCloseBefore(cs', |cs|, entries[m]) {
      var i' :| 0 <= i' < |cs| && cs[i'] == entries[m];
      assert cs'[i'] == cs[i'];
    }
    forall m, i | 0 <= m < |entries| && 0 <= i < |cs'| && cs'[i].key == entries[m].key
                  && cs'[i].hit.distance <= entries[m].hit.distance && NoneAsCloseBefore(cs', i, entries[m])
      ensures cs'[i] == entries[m]
    {
      assert cs'[i] == cs[i];
      assert NoneAsCloseBefore(cs, i, entries[m]) by {
        assert forall i' :: 0 <= i' < i ==> cs'[i'] == cs[i'];
      }
    }
  }

  /** A candidate closer than its group's entry takes that entry's place. */
  lemma OfferReplaces(cs: seq<Candidate>, entries: seq<Candidate>, c: Candidate, k: nat)
    requires Best(cs, entries)
    requires k < |entries| && entries[k].key == c.key && entries[k].hit.distance > c.hit.distance
    ensures Best(cs + [c], entries[k := c])
  {
    OfferReplacesKeys(cs, entries, c, k);
    OfferReplacesCovers(cs, entries, c, k);
    OfferReplacesClosest(cs, entries, c, k);
    OfferReplacesFirst(cs, entries, c, k);
  }

  lemma OfferReplacesKeys(cs: seq<Candidate>, entries: seq<Candidate>, c: Candidate, k: nat)
    requires DistinctKeys(entries) && FromCandidates(cs, entries)
    requires k < |entries| && entries[k].key == c.key
    ensures DistinctKeys(entries[k := c]) && FromCandidates(cs + [c], entries[k := c])
  {
    var cs', entries' := cs + [c], entries[k := c];
    assert forall m :: 0 <= m < |entries'| ==> entries'[m].key == entries[m].key;
    forall m | 0 <= m < |entries'| ensures entries'[m] in cs' {
      if m == k {
        assert cs'[|cs|] == c;
      } else {
        var i :| 0 <= i < |cs| && cs[i] == entries[m];
        assert cs'[i] == cs[i];
      }
    }
  }

  lemma OfferReplacesCovers(cs: seq<Candidate>, entries: seq<Candidate>, c: Candidate, k: nat)
    requires CoversCandidates(cs, entries)
    requires k < |entries| && entries[k].key == c.key
    ensures CoversCandidates(cs + [c], entries[k := c])
  {
    var cs', entries' := cs + [c], entries[k := c];
    forall i | 0 <= i < |cs'| ensures IndexOfKey(entries', cs'[i].key).Some? {
      if i < |cs| {
        var m := IndexOfKey(entries, cs[i].key).value;
        assert entries'[m].key == cs'[i].key;
      } else {
        assert entries'[k].key == cs'[i].key;
      }
    }
  }

  lemma OfferReplacesClosest(cs: seq<Candidate>, entries: seq<Candidate>, c: Candidate, k: nat)
    requires DistinctKeys(entries) && AsCloseAsAll(cs, entries)
    requires k < |entries| && entries[k].key == c.key && entries[k].hit.distance > c.hit.distance
    ensures AsCloseAsAll(cs + [c], entries[k := c])
  {
    var cs', entries' := cs + [c], entries[k := c];
    forall m, i | 0 <= m < |entries'| && 0 <= i < |cs'| && cs'[i].key == entries'[m].key
      ensures entries'[m].hit.distance <= cs'[i].hit.distance
    {
      if i < |cs| {
        assert cs'[i] == cs[i];
      }
    }
  }

  lemma OfferReplacesFirst(cs: seq<Candidate>, entries: seq<Candidate>, c: Candidate, k: nat)
    requires DistinctKeys(entries) && AsCloseAsAll(cs, entries) && FirstOfClosest(cs, entries)
    requires k < |entries| && entries[k].key == c.key && entries[k].hit.distance > c.hit.distance
    ensures FirstOfClosest(cs + [c], entries[k := c])
  {
    var cs', entries' := cs + [c], entries[k := c];
    forall m, i | 0 <= m < |entries'| && 0 <= i < |cs'| && cs'[i].key == entries'[m].key
                  && cs'[i].hit.distance <= entries'[m].hit.distance && NoneAsCloseBefore(cs', i, entries'[m])
      ensures cs'[i] == entries'[m]
    {
      if m != k && i < |cs| {
        assert cs'[i] == cs[i];
        assert NoneAsCloseBefore(cs, i, entries[m]) by {
          assert forall i' :: 0 <= i' < i ==> cs'[i'] == cs[i'];
        }
      } else if m == k && i < |cs| {
        assert false;
      } else if m != k {
        assert false;
      }
    }
  }

  /** A candidate of a group without an entry is added at the end. */
  lemma OfferAdds(cs: seq<Candidate>, entries: seq<Candidate>, c: Candidate)
    requires Best(cs, entries)
    requires forall m :: 0 <= m < |entries| ==> entries[m].key != c.key
    ensures Best(cs + [c], entries + [c])
  {
    OfferAddsCovers(cs, entries, c);
    OfferAddsClosest(cs, entries, c);
    OfferAddsFirst(cs, entries, c);
  }

  lemma OfferAddsCovers(cs: seq<Candidate>, entries: seq<Candidate>, c: Candidate)
    requires Best(cs, entries)
    ensures forall i :: 0 <= i < |cs + [c]| ==> IndexOfKey(entries + [c], (cs + [c])[i].key).Some?
  {
    var cs', entries' := cs + [c], entries + [c];
    forall i | 0 <= i < |cs'| ensures IndexOfKey(entries', cs'[i].key).Some? {
      if i < |cs| {
        var m := IndexOfKey(entries, cs[i].key).value;
        assert entries'[m].key == cs'[i].key;
      } else {
        assert entries'[|entries|].key == cs'[i].key;
      }
    }
  }

  lemma OfferAddsClosest(cs: seq<Candidate>, entries: seq<Candidate>, c: Candidate)
    requires Best(cs, entries)
    requires forall m :: 0 <= m < |entries| ==> entries[m].key != c.key
    ensures var cs', entries' := cs + [c], entries + [c];
            forall m, i :: 0 <= m < |entries'| && 0 <= i < |cs'| && cs'[i].key == entries'[m].key ==>
              entries'[m].hit.distance <= cs'[i].hit.distance
  {
    var cs', entries' := cs + [c], entries + [c];
    forall m, i | 0 <= m < |entries'| && 0 <= i < |cs'| && cs'[i].key == entries'[m].key
      ensures entries'[m].hit.distance <= cs'[i].hit.distance
    {
      if m == |entries| && i < |cs| {
        assert false;
      } else if m < |entries| && i < |cs| {
        assert entries'[m] == entries[m] && cs'[i] == cs[i];
      }
    }
  }

  lemma OfferAddsFirst(cs: seq<Candidate>, entries: seq<Candidate>, c: Candidate)
    requires Best(cs, entries)
    requires forall m :: 0 <= m < |entries| ==> entries[m].key != c.key
    ensures var cs', entries' := cs + [c], entries + [c];
            forall m, i ::
              (&& 0 <= m < |entries'| && 0 <= i < |cs'| && cs'[i].key == entries'[m].key
               && cs'[i].hit.distance <= entries'[m].hit.distance && NoneAsCloseBefore(cs', i, entries'[m]))
              ==> cs'[i] == entries'[m]
  {
    var cs', entries' := cs + [c], entries + [c];
    forall m, i | 0 <= m < |entries'| && 0 <= i < |cs'| && cs'[i].key == entries'[m].key
                  && cs'[i].hit.distance <= entries'[m].hit.distance && NoneAsCloseBefore(cs', i, entries'[m])
      ensures cs'[i] == entries'[m]
    {
      if m == |entries| && i < |cs| {
        assert false;
      } else if m < |entries| && i < |cs| {
        assert entries'[m] == entries[m] && cs'[i] == cs[i];
        assert forall i' :: 0 <= i' < i ==> cs'[i'] == cs[i'];
        assert NoneAsCloseBefore(cs, i, entries[m]);
      }
    }
  }

  /** Offering a candidate keeps the dictionary the best of the candidates offered so far. */
  lemma OfferKeepsBest(cs: seq<Candidate>, entries: seq<Candidate>, c: Candidate)
    requires Best(cs, entries)
    ensures Best(cs + [c], Offer(entries, c))
  {
    match IndexOfKey(entries, c.key)
    case None => OfferAdds(cs, entries, c);
    case Some(k) =>
      if entries[k].hit.distance <= c.hit.distance {
        OfferKeeps(cs, entries, c, k);
      } else {
        OfferReplaces(cs, entries, c, k);
      }
  }

  /** The dictionary is empty exactly when no hit was offered. */
  lemma CollectEmptyIff(cs: seq<Candidate>)
    ensures Collect(cs) == [] <==> cs == []
  {
    if cs != [] {
      var e, c := Collect(cs[..|cs| - 1]), cs[|cs| - 1];
      assert |Put(e, c)| > 0;
    }
  }

  /** Collecting all candidates leaves exactly the closest (first on ties) candidate of each group. */
  lemma {:induction false} CollectIsBest(cs: seq<Candidate>)
    ensures Best(cs, Collect(cs))
  {
    if cs != [] {
      var prefix, last := cs[..|cs| - 1], cs[|cs| - 1];
      assert cs == prefix + [last];
      assert Collect(cs) == Offer(Collect(prefix), last);
      CollectIsBest(prefix);
      OfferKeepsBest(prefix, Collect(prefix), last);
    }
  }

  /** The intersections the dictionary holds, in its order. */
  function Values(entries: seq<Candidate>): (r: seq<Intersection>)
    ensures |r| == |entries|
    ensures forall m :: 0 <= m < |entries| ==> r[m] == entries[m].hit
  {
    if entries == [] then [] else [entries[0].hit] + Values(entries[1..])
  }

  /** Ordered by distance, closest first. */
  predicate SortedByDistance(s: seq<Intersection>) {
    forall i, j :: 0 <= i < j < |s| ==> s[i].distance <= s[j].distance
  }

  /** No element is closer than lo. */
  predicate AtLeast(s: seq<Intersection>, lo: real) {
    forall i :: 0 <= i < |s| ==> lo <= s[i].distance
  }

  /** x placed before the first element that is at least as far. */
  function InsertByDistance(x: Intersection, s: seq<Intersection>): seq<Intersection> {
    if s == [] || x.distance <= s[0].distance then [x] + s else [s[0]] + InsertByDistance(x, s[1..])
  }

  /** Array.Sort by distance; ties keep their order, one of the orders the comparator allows. */
  function SortByDistance(s: seq<Intersection>): seq<Intersection> {
    if s == [] then [] else InsertByDistance(s[0], SortByDistance(s[1..]))
  }

  lemma {:induction false} InsertKeepsSorted(x: Intersection, s: seq<Intersection>, lo: real)
    requires SortedByDistance(s) && AtLeast(s, lo) && lo <= x.distance
    ensures SortedByDistance(InsertByDistance(x, s)) && AtLeast(InsertByDistance(x, s), lo)
  {
    if s != [] && x.distance > s[0].distance {
      InsertKeepsSorted(x, s[1..], s[0].distance);
    }
  }

  lemma {:induction false} InsertPermutes(x: Intersection, s: seq<Intersection>)
    ensures multiset(InsertByDistance(x, s)) == multiset{x} + multiset(s)
  {
    if s != [] && x.distance > s[0].distance {
      InsertPermutes(x, s[1..]);
      assert s == [s[0]] + s[1..];
    }
  }

  /** The sort yields a permutation of its input, ordered by distance. */
  lemma {:induction false} SortByDistanceSorts(s: seq<Intersection>)
    ensures SortedByDistance(SortByDistance(s))
    ensures multiset(SortByDistance(s)) == multiset(s)
  {
    if s != [] {
      SortByDistanceSorts(s[1..]);
      var t := SortByDistance(s[1..]);
      var lo := if t == [] || s[0].distance <= t[0].distance then s[0].distance else t[0].distance;
      InsertKeepsSorted(s[0], t, lo);
      InsertPermutes(s[0], t);
      assert s == [s[0]] + s[1..];
    }
  }

  /** The outcome of FindMultiWorldIntersection; a null key makes the dictionary throw. */
  datatype MultiOutcome = NotFound | Found(intersections: seq<Intersection>) | ThrowsOnMissingBrush

  /** The dictionary once the first i hits of model g have been offered without a throw. */
  predicate OfferedUpTo(q: Query, h: Hierarchy, g: nat, hits: seq<Intersection>, i: nat, before: seq<Candidate>,
                        entries: seq<Candidate>)
    requires WellFormed(h) && i <= |hits|
  {
    NoMissingKey(Considered(q, h, g, hits[..i])) && entries == Collect(before + Considered(q, h, g, hits[..i]))
  }

  /** The inner loop of FindMultiWorldIntersection, over the hits of model g; `threw` when a considered hit has no brush. */
  method OfferModelHits(q: Query, h: Hierarchy, g: nat, hits: seq<Intersection>, ghost before: seq<Candidate>,
                        entries: seq<Candidate>)
    returns (result: seq<Candidate>, threw: bool)
    requires WellFormed(h)
    requires entries == Collect(before)
    ensures threw == !NoMissingKey(Considered(q, h, g, hits))
    ensures !threw ==> result == Collect(before + Considered(q, h, g, hits))
  {
    result := entries;
    assert hits[..0] == [] && before + [] == before;
    for i := 0 to |hits|
      invariant OfferedUpTo(q, h, g, hits, i, before, result)
    {
      result, threw := OfferHit(q, h, g, hits, i, before, result);
      if threw {
        return;
      }
    }
    assert hits[..|hits|] == hits;
    threw := false;
  }

  /** One turn of OfferModelHits: hit i is skipped when its surface is selectable, throws without a brush, and is offered otherwise. */
  method OfferHit(q: Query, h: Hierarchy, g: nat, hits: seq<Intersection>, i: nat, ghost before: seq<Candidate>,
                  entries: seq<Candidate>)
    returns (result: seq<Candidate>, threw: bool)
    requires WellFormed(h) && i < |hits|
    requires OfferedUpTo(q, h, g, hits, i, before, entries)
    ensures threw ==> !NoMissingKey(Considered(q, h, g, hits))
    ensures !threw ==> OfferedUpTo(q, h, g, hits, i + 1, before, result)
  {
    var intersection := hits[i];
    var brush := BrushOf(h, intersection.gameObject);
    if q.isSurfaceSelectable(brush, intersection.surfaceIndex) {
      OfferSkips(q, h, g, hits, i, before, entries);
      return entries, false;
    }
    var currentNode := GetTopMostGroupForNode(h, brush);
    var c := Candidate(currentNode, intersection.(brush := brush, model := Some(g)));
    if currentNode.None? {
      OfferThrows(q, h, g, hits, i);
      return entries, true;
    }
    OfferTakes(q, h, g, hits, i, before, entries);
    threw := false;
    result := entries;
    var other := IndexOfKey(result, currentNode);
    if other.Some? && result[other.value].hit.distance <= intersection.distance {
      return;
    }
    result := Put(result, c);
  }

  /** The hit whose candidate a turn of OfferModelHits makes. */
  function CandidateOf(h: Hierarchy, g: nat, x: Intersection): Candidate
    requires WellFormed(h)
  {
    var brush := BrushOf(h, x.gameObject);
    Candidate(TopKey(h, brush), x.(brush := brush, model := Some(g)))
  }

  /** A skipped hit leaves the dictionary as it was. */
  lemma OfferSkips(q: Query, h: Hierarchy, g: nat, hits: seq<Intersection>, i: nat, before: seq<Candidate>,
                   entries: seq<Candidate>)
    requires WellFormed(h) && i < |hits| && Skipped(q, h, hits[i])
    requires OfferedUpTo(q, h, g, hits, i, before, entries)
    ensures OfferedUpTo(q, h, g, hits, i + 1, before, entries)
  {
    ConsideredStep(q, h, g, hits, i);
    assert Considered(q, h, g, hits[..i]) + [] == Considered(q, h, g, hits[..i]);
  }

  /** A considered hit without a brush has no key, so the dictionary throws. */
  lemma OfferThrows(q: Query, h: Hierarchy, g: nat, hits: seq<Intersection>, i: nat)
    requires WellFormed(h) && i < |hits| && !Skipped(q, h, hits[i])
    requires CandidateOf(h, g, hits[i]).key.None?
    ensures !NoMissingKey(Considered(q, h, g, hits))
  {
    ConsideredStep(q, h, g, hits, i);
    ghost var a, b := Considered(q, h, g, hits[..i + 1]), Considered(q, h, g, hits);
    ConsideredPrefix(q, h, g, hits, i + 1);
    assert a[|a| - 1] == CandidateOf(h, g, hits[i]);
    assert b[|a| - 1] == b[..|a|][|a| - 1];
  }

  /** A considered hit with a key is offered to the dictionary. */
  lemma OfferTakes(q: Query, h: Hierarchy, g: nat, hits: seq<Intersection>, i: nat, before: seq<Candidate>,
                   entries: seq<Candidate>)
    requires WellFormed(h) && i < |hits| && !Skipped(q, h, hits[i])
    requires CandidateOf(h, g, hits[i]).key.Some?
    requires OfferedUpTo(q, h, g, hits, i, before, entries)
    ensures OfferedUpTo(q, h, g, hits, i + 1, before, Offer(entries, CandidateOf(h, g, hits[i])))
  {
    ConsideredStep(q, h, g, hits, i);
    var c := CandidateOf(h, g, hits[i]);
    ghost var done := before + Considered(q, h, g, hits[..i]);
    assert (done + [c])[..|done|] == done;
    assert before + Considered(q, h, g, hits[..i + 1]) == done + [c];
    NoMissingKeyAppend(Considered(q, h, g, hits[..i]), [c]);
  }

  /** The dictionary once the first g models have been offered without a throw. */
  predicate CollectedUpTo(q: Query, h: Hierarchy, rayCastIntoModel: (nat, bool) -> Option<seq<Intersection>>,
                          ignoreInvisible: bool, ignoreUnrenderables: bool, g: nat, entries: seq<Candidate>)
    requires WellFormed(h) && g <= |q.models|
  {
    var cs := Candidates(q, h, rayCastIntoModel, ignoreInvisible, ignoreUnrenderables, g);
    entries == Collect(cs) && NoMissingKey(cs)
  }

  /**
   * One turn of FindMultiWorldIntersection's model loop: a model that does not qualify, or
   * that the ray misses, adds nothing; otherwise its considered hits are offered to the
   * dictionary, which throws on the first one without a brush.
   */
  method OfferModel(q: Query, h: Hierarchy, rayCastIntoModel: (nat, bool) -> Option<seq<Intersection>>,
                    ignoreInvisible: bool, ignoreUnrenderables: bool, g: nat, entries: seq<Candidate>)
    returns (result: seq<Candidate>, threw: bool)
    requires WellFormed(h) && g < |q.models|
    requires CollectedUpTo(q, h, rayCastIntoModel, ignoreInvisible, ignoreUnrenderables, g, entries)
    ensures threw <==> !NoMissingKey(Candidates(q, h, rayCastIntoModel, ignoreInvisible, ignoreUnrenderables, g + 1))
    ensures !threw ==> CollectedUpTo(q, h, rayCastIntoModel, ignoreInvisible, ignoreUnrenderables, g + 1, result)
  {
    ghost var before := Candidates(q, h, rayCastIntoModel, ignoreInvisible, ignoreUnrenderables, g);
    ghost var after := Candidates(q, h, rayCastIntoModel, ignoreInvisible, ignoreUnrenderables, g + 1);
    assert after == before + ModelCandidates(q, h, rayCastIntoModel, ignoreInvisible, ignoreUnrenderables, g);
    var model := q.models[g];
    if !model.alive || !model.activeAndEnabled || !LayerVisible(model.layer, q.visibleLayers)
       || (ignoreUnrenderables && !model.willRender && !model.selected) {
      assert before + [] == before;
      return entries, false;
    }
    var modelIntersections := rayCastIntoModel(g, ignoreInvisible);
    if modelIntersections.None? {
      assert before + [] == before;
      return entries, false;
    }
    var considered := Considered(q, h, g, modelIntersections.value);
    assert after == before + considered;
    result, threw := OfferModelHits(q, h, g, modelIntersections.value, before, entries);
    if threw {
      MissingKeyAppend(before, considered);
    } else {
      NoMissingKeyAppend(before, considered);
    }
  }

  /**
   * The model loop of FindMultiWorldIntersection: every model's considered hits are offered to
   * the dictionary in model order; it throws exactly when some considered hit has no brush.
   */
  method CollectModelHits(q: Query, h: Hierarchy, rayCastIntoModel: (nat, bool) -> Option<seq<Intersection>>,
                          ignoreInvisible: bool, ignoreUnrenderables: bool)
    returns (foundIntersections: seq<Candidate>, threw: bool)
    requires WellFormed(h)
    ensures var cs := Candidates(q, h, rayCastIntoModel, ignoreInvisible, ignoreUnrenderables, |q.models|);
            && (threw <==> !NoMissingKey(cs))
            && (!threw ==> foundIntersections == Collect(cs))
  {
    foundIntersections := [];
    for g := 0 to |q.models|
      invariant CollectedUpTo(q, h, rayCastIntoModel, ignoreInvisible, ignoreUnrenderables, g, foundIntersections)
    {
      foundIntersections, threw := OfferModel(q, h, rayCastIntoModel, ignoreInvisible, ignoreUnrenderables, g, foundIntersections);
      if threw {
        MissingKeyPersists(q, h, rayCastIntoModel, ignoreInvisible, ignoreUnrenderables, g + 1);
        return;
      }
    }
    threw := false;
  }

  /**
   * FindMultiWorldIntersection: not found without a ray caster; otherwise every candidate is
   * offered to the per-group dictionary, which throws on a hit without a brush; not found when
   * the dictionary stays empty, else its intersections sorted by distance.
   */
  method FindMultiWorldIntersection(q: Query, h: Hierarchy, hasRayCastIntoModelMulti: bool,
                                    rayCastIntoModel: (nat, bool) -> Option<seq<Intersection>>,
                                    ignoreInvisibleSurfaces: bool, ignoreUnrenderables: bool)
    returns (outcome: MultiOutcome)
    requires WellFormed(h)
    ensures !hasRayCastIntoModelMulti ==> outcome == NotFound
    ensures hasRayCastIntoModelMulti ==>
              var cs := Candidates(q, h, rayCastIntoModel, ignoreInvisibleSurfaces && !q.showCulledSurfaces,
                                   ignoreUnrenderables, |q.models|);
              outcome == if !NoMissingKey(cs) then ThrowsOnMissingBrush
                         else if cs == [] then NotFound
                         else Found(SortByDistance(Values(Collect(cs))))
  {
    if !hasRayCastIntoModelMulti {
      return NotFound;
    }
    var ignoreInvisible := ignoreInvisibleSurfaces && !q.showCulledSurfaces;
    var foundIntersections, threw := CollectModelHits(q, h, rayCastIntoModel, ignoreInvisible, ignoreUnrenderables);
    if threw {
      return ThrowsOnMissingBrush;
    }
    CollectEmptyIff(Candidates(q, h, rayCastIntoModel, ignoreInvisible, ignoreUnrenderables, |q.models|));
    if |foundIntersections| == 0 {
      return NotFound;
    }
    var sortedIntersections := SortByDistance(Values(foundIntersections));
    outcome := Found(sortedIntersections);
  }

  lemma NoMissingKeyAppend(a: seq<Candidate>, b: seq<Candidate>)
    requires NoMissingKey(a) && NoMissingKey(b)
    ensures NoMissingKey(a + b)
  {
    assert forall i :: |a| <= i < |a + b| ==> (a + b)[i] == b[i - |a|];
  }

  lemma MissingKeyAppend(a: seq<Candidate>, b: seq<Candidate>)
    requires !NoMissingKey(b)
    ensures !NoMissingKey(a + b)
  {
    var i :| 0 <= i < |b| && b[i].key.None?;
    assert (a + b)[|a| + i] == b[i];
  }

  /** A candidate without a brush among the first n models is one among all of them. */
  lemma MissingKeyPersists(q: Query, h: Hierarchy, rayCastIntoModel: (nat, bool) -> Option<seq<Intersection>>,
                           ignoreInvisible: bool, ignoreUnrenderables: bool, n: nat)
    requires WellFormed(h)
    requires n <= |q.models|
    requires !NoMissingKey(Candidates(q, h, rayCastIntoModel, ignoreInvisible, ignoreUnrenderables, n))
    ensures !NoMissingKey(Candidates(q, h, rayCastIntoModel, ignoreInvisible, ignoreUnrenderables, |q.models|))
  {
    var a := Candidates(q, h, rayCastIntoModel, ignoreInvisible, ignoreUnrenderables, n);
    var b := Candidates(q, h, rayCastIntoModel, ignoreInvisible, ignoreUnrenderables, |q.models|);
    CandidatesPrefix(q, h, rayCastIntoModel, ignoreInvisible, ignoreUnrenderables, n, |q.models|);
    var i :| 0 <= i < |a| && a[i].key.None?;
    assert b[i] == a[i];
  }

  /** One more hit adds its candidate unless it is skipped. */
  lemma ConsideredStep(q: Query, h: Hierarchy, g: nat, hits: seq<Intersection>, i: nat)
    requires WellFormed(h)
    requires i < |hits|
    ensures var x, brush := hits[i], BrushOf(h, hits[i].gameObject);
            Considered(q, h, g, hits[..i + 1])
            == Considered(q, h, g, hits[..i])
               + (if Skipped(q, h, x) then [] else [Candidate(TopKey(h, brush), x.(brush := brush, model := Some(g)))])
  {
    assert hits[..i + 1][..i] == hits[..i];
  }

  /** The candidates of fewer models come first among those of more. */
  lemma {:induction false} CandidatesPrefix(q: Query, h: Hierarchy, rayCastIntoModel: (nat, bool) -> Option<seq<Intersection>>,
                                            ignoreInvisible: bool, ignoreUnrenderables: bool, n: nat, m: nat)
    requires WellFormed(h)
    requires n <= m <= |q.models|
    ensures var a, b := Candidates(q, h, rayCastIntoModel, ignoreInvisible, ignoreUnrenderables, n),
                        Candidates(q, h, rayCastIntoModel, ignoreInvisible, ignoreUnrenderables, m);
            |a| <= |b| && b[..|a|] == a
    decreases m
  {
    if n < m {
      CandidatesPrefix(q, h, rayCastIntoModel, ignoreInvisible, ignoreUnrenderables, n, m - 1);
    }
  }

  /** The candidates of the first i hits of a model come first among those of all its hits. */
  lemma {:induction false} ConsideredPrefix(q: Query, h: Hierarchy, g: nat, hits: seq<Intersection>, i: nat)
    requires WellFormed(h)
    requires i <= |hits|
    ensures var a, b := Considered(q, h, g, hits[..i]), Considered(q, h, g, hits);
            |a| <= |b| && b[..|a|] == a
    decreases |hits|
  {
    if i < |hits| {
      var prefix := hits[..|hits| - 1];
      ConsideredPrefix(q, h, g, prefix, i);
      assert prefix[..i] == hits[..i];
    } else {
      assert hits[..i] == hits;
    }
  }

  /**
   * What FindMultiWorldIntersection's result holds: the dictionary's intersections, closest
   * first, one per top-most group, each the first closest candidate of its group, with every
   * group that got a candidate present.
   */
  lemma MultiIntersectionFacts(cs: seq<Candidate>)
    requires NoMissingKey(cs) && cs != []
    ensures var entries := Collect(cs);
            var r := SortByDistance(Values(entries));
            && SortedByDistance(r)
            && multiset(r) == multiset(Values(entries))
            && Best(cs, entries)
            && |r| > 0
  {
    CollectIsBest(cs);
    SortByDistanceSorts(Values(Collect(cs)));
    assert IndexOfKey(Collect(cs), cs[0].key).Some?;
  }
}
