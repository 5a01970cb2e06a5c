/**
 * The camera-side driver of portal rendering (Assets/PortalRenderer.cs): it picks the first
 * occlusion volume containing the camera, decides which portals to render from it, asks each
 * visible one to render recursively, and releases all render textures after the frame.
 * The recursive render itself and the texture pool live in code outside this model; they are
 * represented by the calls made to them.
 */
module PortalRendering {
  import opened Wrappers
  import opened Geometry
  import opened Portals

  /** An axis-aligned box as Unity's Bounds gives it. */
  datatype Bounds = Bounds(min: Vec3, max: Vec3)

  /** Bounds.Contains: inside or on the box's faces. */
  predicate Contains(b: Bounds, p: Vec3) {
    && b.min.x <= p.x <= b.max.x
    && b.min.y <= p.y <= b.max.y
    && b.min.z <= p.z <= b.max.z
  }

  /** A PortalOcclusionVolume: its collider's bounds and the portals visible from inside it. */
  datatype OcclusionVolume = OcclusionVolume(bounds: Bounds, visiblePortals: seq<Portal>)

  /** The index of the first volume, from index `from` on, whose bounds contain p. */
  function FirstContainingFrom(volumes: seq<OcclusionVolume>, p: Vec3, from: nat): (r: Option<nat>)
    requires from <= |volumes|
    ensures r.Some? ==> from <= r.value < |volumes| && Contains(volumes[r.value].bounds, p)
                        && forall k :: from <= k < r.value ==> !Contains(volumes[k].bounds, p)
    ensures r.None? ==> forall k :: from <= k < |volumes| ==> !Contains(volumes[k].bounds, p)
    decreases |volumes| - from
  {
    if from == |volumes| then None
    else if Contains(volumes[from].bounds, p) then Some(from)
    else FirstContainingFrom(volumes, p, from + 1)
  }

  /** The first volume, in array order, whose bounds contain p. */
  function FirstContaining(volumes: seq<OcclusionVolume>, p: Vec3): Option<nat> {
    FirstContainingFrom(volumes, p, 0)
  }

  /**
   * PortalRenderer.cs:45: the chosen volume's portals; with no volume, all portals when
   * defaultRenderAllPortals is set, else none (the source's null array, which renders nothing).
   */
  function PortalsToRender(volumes: seq<OcclusionVolume>, chosen: Option<nat>, defaultRenderAllPortals: bool,
                           allPortals: seq<Portal>): seq<Portal>
    requires chosen.Some? ==> chosen.value < |volumes|
  {
    if chosen.Some? then volumes[chosen.value].visiblePortals
    else if defaultRenderAllPortals then allPortals
    else []
  }

  /** The portals of ps whose renderer is visible, in list order. */
  function VisibleOnes(ps: seq<Portal>, isVisible: Portal -> bool): seq<Portal> {
    if ps == [] then []
    else VisibleOnes(ps[..|ps| - 1], isVisible) + (if isVisible(ps[|ps| - 1]) then [ps[|ps| - 1]] else [])
  }

  /** VisibleOnes keeps exactly the visible portals, in order, and nothing else. */
  lemma {:induction false} VisibleOnesAreTheVisible(ps: seq<Portal>, isVisible: Portal -> bool)
    ensures |VisibleOnes(ps, isVisible)| <= |ps|
    ensures forall p :: p in VisibleOnes(ps, isVisible) <==> p in ps && isVisible(p)
    ensures IsSubsequence(VisibleOnes(ps, isVisible), ps)
  {
    if ps != [] {
      var init, last := ps[..|ps| - 1], ps[|ps| - 1];
      VisibleOnesAreTheVisible(init, isVisible);
      assert ps == init + [last];
      SubsequenceAppend(VisibleOnes(init, isVisible), init, if isVisible(last) then [last] else [], [last]);
    }
  }

  lemma {:induction false} SubsequenceAppend<T>(a: seq<T>, b: seq<T>, c: seq<T>, d: seq<T>)
    requires IsSubsequence(a, b) && IsSubsequence(c, d)
    ensures IsSubsequence(a + c, b + d)
    decreases |b|
  {
    if a == [] {
      SubsequencePrefix(c, b, d);
      assert a + c == c;
    } else if a[0] == b[0] && IsSubsequence(a[1..], b[1..]) {
      SubsequenceAppend(a[1..], b[1..], c, d);
      assert (a + c)[1..] == a[1..] + c;
      assert (b + d)[1..] == b[1..] + d;
    } else {
      SubsequenceAppend(a, b[1..], c, d);
      assert (b + d)[1..] == b[1..] + d;
    }
  }

  lemma {:induction false} SubsequencePrefix<T>(c: seq<T>, b: seq<T>, d: seq<T>)
    requires IsSubsequence(c, d)
    ensures IsSubsequence(c, b + d)
    decreases |b|
  {
    if b != [] {
      SubsequencePrefix(c, b[1..], d);
      assert (b + d)[1..] == b[1..] + d;
    } else {
      assert b + d == d;
    }
  }

  /** A portal found visible in a prefix of the list is found in the whole list too. */
  lemma {:induction false} VisibleOnesGrow(ps: seq<Portal>, n: nat, isVisible: Portal -> bool)
    requires n <= |ps| && VisibleOnes(ps[..n], isVisible) != []
    ensures VisibleOnes(ps, isVisible) != []
    decreases |ps| - n
  {
    if n < |ps| {
      assert ps[..n + 1][..n] == ps[..n];
      VisibleOnesGrow(ps, n + 1, isVisible);
    } else {
      assert ps[..n] == ps;
    }
  }

  class PortalRenderer {
    const defaultRenderAllPortals: bool
    var debugDirectPortalCount: int
    var debugTotalPortalCount: int
    var allPortals: seq<Portal>
    var portalOcclusionVolumes: seq<OcclusionVolume>
    /** How many times GameManager.ReleaseAllPortalRenderTextures has been called. */
    var releaseAllCalls: nat

    constructor (defaultRenderAllPortals: bool)
      ensures this.defaultRenderAllPortals == defaultRenderAllPortals
      ensures debugDirectPortalCount == 0 && debugTotalPortalCount == 0
      ensures allPortals == [] && portalOcclusionVolumes == [] && releaseAllCalls == 0
    {
      this.defaultRenderAllPortals := defaultRenderAllPortals;
      debugDirectPortalCount, debugTotalPortalCount := 0, 0;
      allPortals, portalOcclusionVolumes := [], [];
      releaseAllCalls := 0;
    }

    /** Start: the scene's portals and occlusion volumes (FindObjectsOfType) are cached. */
    method Start(scenePortals: seq<Portal>, sceneVolumes: seq<OcclusionVolume>)
      modifies this`allPortals, this`portalOcclusionVolumes
      ensures allPortals == scenePortals && portalOcclusionVolumes == sceneVolumes
    {
      allPortals, portalOcclusionVolumes := scenePortals, sceneVolumes;
    }

    /**
     * OnPreRender, for the camera at cameraPosition. isVisible is each portal renderer's
     * visibility and renderCount the count the recursive render reports for a portal;
     * hasMainCamera is whether GameManager.instance.mainCamera is set. Returns the chosen
     * volume and the portals the recursive render is called on, in order. Without a main
     * camera the pose read for the first visible portal throws: no portal is rendered, the
     * direct count stays at the 0 it was reset to, and `threw` is set.
     */
    method OnPreRender(cameraPosition: Vec3, isVisible: Portal -> bool, renderCount: Portal -> int, hasMainCamera: bool)
      returns (chosen: Option<nat>, rendered: seq<Portal>, threw: bool)
      modifies this`debugDirectPortalCount, this`debugTotalPortalCount
      ensures chosen == FirstContaining(portalOcclusionVolumes, cameraPosition)
      ensures var visible := VisibleOnes(PortalsToRender(portalOcclusionVolumes, chosen, defaultRenderAllPortals, allPortals), isVisible);
              && threw == (!hasMainCamera && visible != [])
              && rendered == if hasMainCamera then visible else []
      ensures debugDirectPortalCount == |rendered|
      ensures debugTotalPortalCount == if rendered == [] then old(debugTotalPortalCount) else renderCount(rendered[|rendered| - 1])
    {
      chosen := None;
      var v := 0;
      while v < |portalOcclusionVolumes|
        invariant 0 <= v <= |portalOcclusionVolumes|
        invariant FirstContainingFrom(portalOcclusionVolumes, cameraPosition, v) == FirstContaining(portalOcclusionVolumes, cameraPosition)
      {
        if Contains(portalOcclusionVolumes[v].bounds, cameraPosition) {
          chosen := Some(v);
          break;
        }
        v := v + 1;
      }
      var portalsToRender := if chosen.Some? then portalOcclusionVolumes[chosen.value].visiblePortals
                             else if defaultRenderAllPortals then allPortals else [];
      debugDirectPortalCount := 0;
      rendered := [];
      threw := false;
      var k := 0;
      while k < |portalsToRender|
        invariant 0 <= k <= |portalsToRender|
        invariant rendered == VisibleOnes(portalsToRender[..k], isVisible)
        invariant !hasMainCamera ==> rendered == []
        invariant debugDirectPortalCount == |rendered|
        invariant debugTotalPortalCount == if rendered == [] then old(debugTotalPortalCount) else renderCount(rendered[|rendered| - 1])
      {
        var portal := portalsToRender[k];
        assert portalsToRender[..k + 1][..k] == portalsToRender[..k];
        if isVisible(portal) {
          if !hasMainCamera {
            threw := true;
            assert VisibleOnes(portalsToRender[..k + 1], isVisible) != [];
            VisibleOnesGrow(portalsToRender, k + 1, isVisible);
            return;
          }
          rendered := rendered + [portal];
          debugDirectPortalCount := debugDirectPortalCount + 1;
          debugTotalPortalCount := renderCount(portal);
        }
        k := k + 1;
      }
      assert portalsToRender[..k] == portalsToRender;
    }

    /** OnPostRender: every frame ends by releasing all portal render textures. */
    method OnPostRender()
      modifies this`releaseAllCalls
      ensures releaseAllCalls == old(releaseAllCalls) + 1
    {
      releaseAllCalls := releaseAllCalls + 1;
    }
  }

  /** The direct-portal counter ends equal to the number of listed portals whose renderer is visible. */
  lemma {:induction false} DirectCountIsVisibleCount(ps: seq<Portal>, isVisible: Portal -> bool)
    requires Distinct(ps)
    ensures |VisibleOnes(ps, isVisible)| == |set p | p in ps && isVisible(p)|
  {
    if ps != [] {
      var init, last := ps[..|ps| - 1], ps[|ps| - 1];
      assert ps == init + [last];
      assert Distinct(init) && last !in init;
      DirectCountIsVisibleCount(init, isVisible);
      VisibleSetStep(init, last, isVisible);
    }
  }

  /** One more portal, not listed before, adds itself to the visible set when it is visible. */
  lemma VisibleSetStep(init: seq<Portal>, last: Portal, isVisible: Portal -> bool)
    requires last !in init
    ensures |set p | p in init + [last] && isVisible(p)|
            == |set p | p in init && isVisible(p)| + (if isVisible(last) then 1 else 0)
  {
    var before := set p | p in init && isVisible(p);
    if isVisible(last) {
      assert (set p | p in init + [last] && isVisible(p)) == before + {last};
    } else {
      assert (set p | p in init + [last] && isVisible(p)) == before;
    }
  }
}
