/**
 * A single portal (Assets/Scripts/Portal.cs): the list of objects currently inside its
 * trigger, the per-frame crossing scan that warps and untracks the objects that have passed
 * behind the surface, and the rule that enables the target's view-through camera.
 */
module Portals {
  import opened Wrappers
  import opened Geometry

  /** A world pose as the portal code reads and writes it (transform position and rotation). */
  datatype Pose = Pose(position: Vec3, rotation: Quat)

  /** The part of a portalable object that a crossing changes. */
  datatype ObjectState = ObjectState(position: Vec3, rotation: Quat, agentEnabled: bool)

  /** A GameObject with a PortalableObject component. */
  class PortalableObject {
    var position: Vec3
    var rotation: Quat
    /** Whether the object also carries a NavMeshAgent component. */
    const hasNavMeshAgent: bool
    var agentEnabled: bool

    constructor (position: Vec3, rotation: Quat, hasNavMeshAgent: bool, agentEnabled: bool)
      ensures this.position == position && this.rotation == rotation
      ensures this.hasNavMeshAgent == hasNavMeshAgent && this.agentEnabled == agentEnabled
    {
      this.position, this.rotation := position, rotation;
      this.hasNavMeshAgent, this.agentEnabled := hasNavMeshAgent, agentEnabled;
    }

    function State(): ObjectState
      reads this
    {
      ObjectState(position, rotation, agentEnabled)
    }
  }

  /** The camera another portal renders this portal's view through with (`viewThroughFromCamera`). */
  class ViewCamera {
    var enabled: bool
    var position: Vec3
    var rotation: Quat

    constructor (enabled: bool, pose: Pose)
      ensures this.enabled == enabled && this.position == pose.position && this.rotation == pose.rotation
    {
      this.enabled, this.position, this.rotation := enabled, pose.position, pose.rotation;
    }
  }

  class Portal {
    /** The target portal; may be left unset in the editor. */
    var target: Portal?
    /** This portal's transform and the transform of its surface normal (`portalNormal`). */
    const frames: PortalFrames
    const viewThroughFromCamera: ViewCamera
    /** The objects whose trigger contact has begun and not yet ended, duplicates included. */
    var objectsInPortal: seq<PortalableObject>
    /** The GameObject's name and the transform's lossy scale, read by the editor sanity check. */
    const name: string
    const lossyScale: Vec3
    /** The GameObject's layer, which a shot through the portal pair rewrites for one raycast. */
    var layer: int

    constructor (frames: PortalFrames, camera: ViewCamera, name: string, lossyScale: Vec3, layer: int)
      ensures this.target == null && this.frames == frames && this.viewThroughFromCamera == camera
      ensures this.name == name && this.lossyScale == lossyScale && objectsInPortal == []
      ensures this.layer == layer
    {
      this.target := null;
      this.frames, this.viewThroughFromCamera := frames, camera;
      this.name, this.lossyScale := name, lossyScale;
      objectsInPortal := [];
      this.layer := layer;
    }

    /**
     * OnTriggerEnter: the collider's PortalableObject component (null when it has none) is
     * appended, even when it is tracked already.
     */
    method OnTriggerEnter(portalable: PortalableObject?)
      modifies this`objectsInPortal
      ensures objectsInPortal == if portalable == null then old(objectsInPortal) else old(objectsInPortal) + [portalable]
    {
      if portalable != null {
        objectsInPortal := objectsInPortal + [portalable];
      }
    }

    /** OnTriggerExit: List.Remove drops the first occurrence of the component, if any. */
    method OnTriggerExit(portalable: PortalableObject?)
      modifies this`objectsInPortal
      ensures portalable == null ==> objectsInPortal == old(objectsInPortal)
      ensures portalable != null ==> objectsInPortal == RemoveFirst<PortalableObject>(old(objectsInPortal), portalable)
    {
      if portalable != null {
        var p: PortalableObject := portalable;
        objectsInPortal := RemoveFirst(objectsInPortal, p);
      }
    }

    /**
     * UpdateViewThrough: the target's camera is enabled exactly when this portal's renderer
     * is visible; when it is and there is a main camera, the target camera takes the main
     * camera's pose carried through the portal pair. The oblique projection is not modelled.
     */
    method UpdateViewThrough(g: Group, rendererVisible: bool, mainCamera: Option<Pose>)
      requires target != null
      modifies target.viewThroughFromCamera
      ensures target.viewThroughFromCamera.enabled == rendererVisible
      ensures var cam := target.viewThroughFromCamera;
              if rendererVisible && mainCamera.Some? then
                && cam.position == TransformPositionBetweenPortals(frames, target.frames, mainCamera.value.position)
                && cam.rotation == TransformRotationBetweenPortals(g, frames, target.frames, mainCamera.value.rotation)
              else cam.position == old(cam.position) && cam.rotation == old(cam.rotation)
    {
      var cam := target.viewThroughFromCamera;
      if !rendererVisible {
        cam.enabled := false;
        return;
      } else {
        cam.enabled := true;
      }
      if mainCamera.None? {
        return;
      }
      var pose := mainCamera.value;
      cam.position, cam.rotation :=
        TransformPositionBetweenPortals(frames, target.frames, pose.position),
        TransformRotationBetweenPortals(g, frames, target.frames, pose.rotation);
    }

    /**
     * UpdateTeleport: the in-place scan over the tracked list. An object behind the surface
     * is warped through the portal pair and removed with RemoveAt(i), after which i is still
     * incremented. Its effect is exactly that of ScanFrom from index 0.
     */
    method UpdateTeleport(g: Group)
      requires target != null
      modifies this`objectsInPortal, objectsInPortal
      ensures var r := ScanFrom(g, frames, target.frames, 0,
                                Scan(old(objectsInPortal), old(StatesOf(objectsInPortal)), []));
              && objectsInPortal == r.tracked
              && forall o :: o in old(objectsInPortal) ==> o.State() == r.states[o]
    {
      ghost var init := Scan(objectsInPortal, StatesOf(objectsInPortal), []);
      ghost var s := init;
      var sender, receiver := frames, target.frames;
      var i := 0;
      while i < |objectsInPortal|
        invariant s.tracked == objectsInPortal && Covered(s)
        invariant s.states.Keys == init.states.Keys
        invariant forall o :: o in s.states ==> o.State() == s.states[o]
        invariant ScanFrom(g, sender, receiver, i, s) == ScanFrom(g, sender, receiver, 0, init)
      {
        ScanStep(g, sender, receiver, i, s);
        assert objectsInPortal[i] in init.states;
        s := TeleportIfBehind(g, sender, receiver, i, s);
        i := i + 1;
      }
    }

    /**
     * The body of the loop in Portal.cs:172-199 for slot i: an object behind the surface is
     * warped and removed. The ghost scan state s mirrors the list and every object's state.
     */
    method TeleportIfBehind(g: Group, sender: PortalFrames, receiver: PortalFrames, i: nat, ghost s: Scan)
      returns (ghost s': Scan)
      requires i < |objectsInPortal| && s.tracked == objectsInPortal && Covered(s)
      requires forall o :: o in s.states ==> o.State() == s.states[o]
      modifies this`objectsInPortal, objectsInPortal[i]
      ensures s' == if BehindPortal(sender, s.states[s.tracked[i]].position) then WarpAt(g, sender, receiver, i, s) else s
      ensures objectsInPortal == s'.tracked
      ensures forall o :: o in s'.states ==> o.State() == s'.states[o]
    {
      var o := objectsInPortal[i];
      var local := sender.portalNormal.points.toLocal(o.position);
      if local.z < 0.0 {
        s' := WarpAt(g, sender, receiver, i, s);
        WarpObject(g, sender, receiver, o);
        objectsInPortal := objectsInPortal[..i] + objectsInPortal[i + 1..];
      } else {
        s' := s;
      }
    }

    /**
     * Portal.cs:177-196 for one object: a NavMeshAgent is disabled, the pose is carried
     * through the portal pair, and the agent is enabled again.
     */
    static method WarpObject(g: Group, sender: PortalFrames, receiver: PortalFrames, o: PortalableObject)
      modifies o
      ensures o.State() == Warp(g, sender, receiver, o.hasNavMeshAgent, old(o.State()))
    {
      if o.hasNavMeshAgent {
        o.agentEnabled := false;
      }
      o.position, o.rotation :=
        TransformPositionBetweenPortals(sender, receiver, o.position),
        TransformRotationBetweenPortals(g, sender, receiver, o.rotation);
      if o.hasNavMeshAgent {
        o.agentEnabled := true;
      }
    }

    /**
     * LateUpdate: UpdateViewThrough dereferences the target on its first line, so a portal
     * without a target throws there (ok is false), before UpdateTeleport is reached.
     */
    method LateUpdate(g: Group, rendererVisible: bool, mainCamera: Option<Pose>) returns (ok: bool)
      modifies this`objectsInPortal, objectsInPortal, if target == null then {} else {target.viewThroughFromCamera}
      ensures ok == (target != null)
      ensures !ok ==> objectsInPortal == old(objectsInPortal)
                      && forall o :: o in old(objectsInPortal) ==> o.State() == old(o.State())
      ensures ok ==> var cam := target.viewThroughFromCamera;
                     && cam.enabled == rendererVisible
                     && if rendererVisible && mainCamera.Some? then
                          && cam.position == TransformPositionBetweenPortals(frames, target.frames, mainCamera.value.position)
                          && cam.rotation == TransformRotationBetweenPortals(g, frames, target.frames, mainCamera.value.rotation)
                        else cam.position == old(cam.position) && cam.rotation == old(cam.rotation)
      ensures ok ==> var r := ScanFrom(g, frames, target.frames, 0,
                                       Scan(old(objectsInPortal), old(StatesOf(objectsInPortal)), []));
                     && objectsInPortal == r.tracked
                     && forall o :: o in old(objectsInPortal) ==> o.State() == r.states[o]
    {
      if target == null {
        return false;
      }
      UpdateViewThrough(g, rendererVisible, mainCamera);
      UpdateTeleport(g);
      ok := true;
    }
  }

  /** The states of the given objects, keyed by object. */
  function StatesOf(objs: seq<PortalableObject>): map<PortalableObject, ObjectState>
    reads objs
  {
    map o | o in objs :: o.State()
  }

  /** List.Remove: the list without its first occurrence of o; unchanged when o is absent. */
  function RemoveFirst<T(==)>(l: seq<T>, o: T): (r: seq<T>)
    ensures o !in l ==> r == l
    ensures o in l ==> |r| == |l| - 1
  {
    if l == [] then []
    else if l[0] == o then
      assert l == [l[0]] + l[1..];
      l[1..]
    else
      assert l == [l[0]] + l[1..];
      [l[0]] + RemoveFirst(l[1..], o)
  }

  /** Removing the first occurrence takes exactly one copy of o out of the list's contents. */
  lemma {:induction false} RemoveFirstRemovesOne<T>(l: seq<T>, o: T)
    requires o in l
    ensures multiset(RemoveFirst(l, o)) == multiset(l) - multiset{o}
  {
    assert l == [l[0]] + l[1..];
    if l[0] != o {
      RemoveFirstRemovesOne(l[1..], o);
    }
  }

  /** Removing the first occurrence, at slot k, is RemoveAt(k). */
  lemma {:induction false} RemoveFirstIsRemoveAt<T>(l: seq<T>, o: T, k: nat)
    requires k < |l| && l[k] == o && forall j :: 0 <= j < k ==> l[j] != o
    ensures RemoveFirst(l, o) == l[..k] + l[k + 1..]
  {
    if k == 0 {
      assert l[..0] + l[1..] == l[1..];
    } else {
      RemoveFirstIsRemoveAt(l[1..], o, k - 1);
      RemoveAtCons(l, k - 1);
    }
  }

  /** Removing slot k + 1 of a non-empty list is its head followed by its tail without slot k. */
  lemma RemoveAtCons<T>(l: seq<T>, k: nat)
    requires k + 1 < |l|
    ensures [l[0]] + (l[1..][..k] + l[1..][k + 1..]) == l[..k + 1] + l[k + 2..]
  {
    assert l[..k + 1] == [l[0]] + l[1..][..k];
  }

  /** Leaving right after entering undoes the entry when the object was not tracked before. */
  lemma {:induction false} ExitUndoesEnter<T>(l: seq<T>, o: T)
    ensures o !in l ==> RemoveFirst(l + [o], o) == l
    ensures o in l ==> RemoveFirst(l + [o], o) == RemoveFirst(l, o) + [o]
  {
    var l' := l + [o];
    if l == [] {
      assert l' == [o];
    } else {
      assert l'[0] == l[0] && l'[1..] == l[1..] + [o];
      assert l == [l[0]] + l[1..];
      if l[0] == o {
        assert RemoveFirst(l', o) == l[1..] + [o];
      } else {
        ExitUndoesEnter(l[1..], o);
        assert RemoveFirst(l', o) == [l[0]] + RemoveFirst(l[1..] + [o], o);
      }
    }
  }

  /** Portal.cs:172-173: the object's position, in the portal normal's local space, has z below 0. */
  predicate BehindPortal(sender: PortalFrames, position: Vec3) {
    sender.portalNormal.points.toLocal(position).z < 0.0
  }

  /**
   * One warp (Portal.cs:178-193): pose carried through the pair; a NavMeshAgent is disabled
   * around the move and enabled again, so it ends enabled whatever it was before.
   */
  function Warp(g: Group, sender: PortalFrames, target: PortalFrames, hasAgent: bool, s: ObjectState): ObjectState {
    ObjectState(TransformPositionBetweenPortals(sender, target, s.position),
                TransformRotationBetweenPortals(g, sender, target, s.rotation),
                if hasAgent then true else s.agentEnabled)
  }

  /** The scan's state: the tracked list, every object's state, and the objects warped so far. */
  datatype Scan = Scan(tracked: seq<PortalableObject>, states: map<PortalableObject, ObjectState>, warped: seq<PortalableObject>)

  ghost predicate Covered(s: Scan) {
    forall o :: o in s.tracked ==> o in s.states
  }

  /** The body of Portal.cs:172-199 for an object behind the surface at slot i: warp it and RemoveAt(i). */
  function WarpAt(g: Group, sender: PortalFrames, target: PortalFrames, i: nat, s: Scan): (s': Scan)
    requires Covered(s) && i < |s.tracked|
    ensures Covered(s') && s'.states.Keys == s.states.Keys
  {
    var o := s.tracked[i];
    var s' := Scan(s.tracked[..i] + s.tracked[i + 1..],
                   s.states[o := Warp(g, sender, target, o.hasNavMeshAgent, s.states[o])],
                   s.warped + [o]);
    assert forall x :: x in s'.tracked ==> x in s.tracked;
    s'
  }

  /** One iteration of the scan. */
  lemma ScanStep(g: Group, sender: PortalFrames, target: PortalFrames, i: nat, s: Scan)
    requires Covered(s) && i < |s.tracked|
    ensures ScanFrom(g, sender, target, i, s)
         == if BehindPortal(sender, s.states[s.tracked[i]].position)
            then ScanFrom(g, sender, target, i + 1, WarpAt(g, sender, target, i, s))
            else ScanFrom(g, sender, target, i + 1, s)
  {
  }

  /** The loop of Portal.cs:166-201 from index i on. */
  function ScanFrom(g: Group, sender: PortalFrames, target: PortalFrames, i: nat, s: Scan): (r: Scan)
    requires Covered(s)
    ensures r.states.Keys == s.states.Keys
    decreases |s.tracked| - i
  {
    if i >= |s.tracked| then s
    else
      var o := s.tracked[i];
      if BehindPortal(sender, s.states[o].position) then
        var s' := WarpAt(g, sender, target, i, s);
        ScanFrom(g, sender, target, i + 1, s')
      else
        ScanFrom(g, sender, target, i + 1, s)
  }

  /** a is a subsequence of b: b with some elements deleted, order kept. */
  predicate IsSubsequence<T(==)>(a: seq<T>, b: seq<T>)
    decreases |b|
  {
    a == [] || (b != [] && ((a[0] == b[0] && IsSubsequence(a[1..], b[1..])) || IsSubsequence(a, b[1..])))
  }

  lemma {:induction false} SubsequenceRefl<T>(b: seq<T>)
    ensures IsSubsequence(b, b)
    decreases |b|
  {
    if b != [] {
      SubsequenceRefl(b[1..]);
    }
  }

  lemma {:induction false} SubsequenceDrop<T>(b: seq<T>, i: nat)
    requires i < |b|
    ensures IsSubsequence(b[..i] + b[i + 1..], b)
    decreases i
  {
    var a := b[..i] + b[i + 1..];
    if i == 0 {
      assert a == b[1..];
      SubsequenceRefl(b[1..]);
    } else {
      SubsequenceDrop(b[1..], i - 1);
      assert a[0] == b[0];
      assert a[1..] == b[1..][..i - 1] + b[1..][i..];
    }
  }

  lemma {:induction false} SubsequenceTrans<T>(a: seq<T>, b: seq<T>, c: seq<T>)
    requires IsSubsequence(a, b) && IsSubsequence(b, c)
    ensures IsSubsequence(a, c)
    decreases |c|
  {
    if a != [] {
      if IsSubsequence(b, c[1..]) {
        SubsequenceTrans(a, b, c[1..]);
      } else if a[0] == b[0] && IsSubsequence(a[1..], b[1..]) {
        SubsequenceTrans(a[1..], b[1..], c[1..]);
      } else {
        SubsequenceTrans(a, b[1..], c[1..]);
      }
    }
  }

  lemma {:induction false} SubsequenceMembers<T>(a: seq<T>, b: seq<T>, x: T)
    requires IsSubsequence(a, b) && x in a
    ensures x in b
    decreases |b|
  {
    if a[0] == b[0] && IsSubsequence(a[1..], b[1..]) {
      if x != a[0] {
        assert x in a[1..];
        SubsequenceMembers(a[1..], b[1..], x);
      }
    } else {
      SubsequenceMembers(a, b[1..], x);
    }
  }

  /**
   * The tracked list never grows; every removal is matched by exactly one warp; and the
   * objects removed plus the objects kept are the objects tracked before.
   */
  lemma {:induction false} ScanRemovesByWarping(g: Group, sender: PortalFrames, target: PortalFrames, i: nat, s: Scan)
    requires Covered(s)
    ensures var r := ScanFrom(g, sender, target, i, s);
            && |r.tracked| <= |s.tracked|
            && |r.tracked| + |r.warped| == |s.tracked| + |s.warped|
            && |s.warped| <= |r.warped| && r.warped[..|s.warped|] == s.warped
            && multiset(r.tracked) + multiset(r.warped) == multiset(s.tracked) + multiset(s.warped)
    decreases |s.tracked| - i
  {
    if i < |s.tracked| {
      var o := s.tracked[i];
      if BehindPortal(sender, s.states[o].position) {
        var s' := WarpAt(g, sender, target, i, s);
        WarpAtMovesOne(g, sender, target, i, s);
        ScanRemovesByWarping(g, sender, target, i + 1, s');
        var r := ScanFrom(g, sender, target, i + 1, s');
        assert r.warped[..|s'.warped|][..|s.warped|] == r.warped[..|s.warped|];
      } else {
        ScanRemovesByWarping(g, sender, target, i + 1, s);
      }
    }
  }

  /** One removal moves the object at slot i from the tracked list to the end of the warped list. */
  lemma WarpAtMovesOne(g: Group, sender: PortalFrames, target: PortalFrames, i: nat, s: Scan)
    requires Covered(s) && i < |s.tracked|
    ensures var s' := WarpAt(g, sender, target, i, s);
            && |s'.tracked| == |s.tracked| - 1 && s'.warped == s.warped + [s.tracked[i]]
            && s'.tracked[..i] == s.tracked[..i]
            && multiset(s'.tracked) + multiset(s'.warped) == multiset(s.tracked) + multiset(s.warped)
  {
    var o := s.tracked[i];
    assert s.tracked == s.tracked[..i] + [o] + s.tracked[i + 1..];
  }

  /** The objects at indices below i, already examined, are never touched. */
  lemma {:induction false} ScanKeepsExaminedPrefix(g: Group, sender: PortalFrames, target: PortalFrames, i: nat, s: Scan)
    requires Covered(s) && i <= |s.tracked|
    ensures var r := ScanFrom(g, sender, target, i, s);
            i <= |r.tracked| && r.tracked[..i] == s.tracked[..i]
    decreases |s.tracked| - i
  {
    if i < |s.tracked| {
      ScanStep(g, sender, target, i, s);
      if BehindPortal(sender, s.states[s.tracked[i]].position) {
        var s' := WarpAt(g, sender, target, i, s);
        WarpAtMovesOne(g, sender, target, i, s);
        if i + 1 <= |s'.tracked| {
          ScanKeepsExaminedPrefix(g, sender, target, i + 1, s');
          PrefixOfPrefix(ScanFrom(g, sender, target, i + 1, s').tracked, s'.tracked, s.tracked, i);
        } else {
          assert ScanFrom(g, sender, target, i + 1, s') == s';
        }
      } else {
        ScanKeepsExaminedPrefix(g, sender, target, i + 1, s);
        PrefixOfPrefix(ScanFrom(g, sender, target, i + 1, s).tracked, s.tracked, s.tracked, i);
      }
    }
  }

  /** Agreeing on the first i + 1 elements with b, which agrees with c on the first i, a agrees with c on i. */
  lemma PrefixOfPrefix<T>(a: seq<T>, b: seq<T>, c: seq<T>, i: nat)
    requires i + 1 <= |a| && i + 1 <= |b| && i <= |c|
    requires a[..i + 1] == b[..i + 1] && b[..i] == c[..i]
    ensures a[..i] == c[..i]
  {
    assert a[..i] == a[..i + 1][..i] && b[..i] == b[..i + 1][..i];
  }

  /**
   * The element that slides into slot i after RemoveAt(i) is skipped by the i++ and is
   * still tracked at slot i when the tick ends, whether or not it is behind the surface.
   */
  lemma SlidElementSurvivesTick(g: Group, sender: PortalFrames, target: PortalFrames, i: nat, s: Scan)
    requires Covered(s) && i + 1 < |s.tracked|
    requires BehindPortal(sender, s.states[s.tracked[i]].position)
    ensures var r := ScanFrom(g, sender, target, i, s);
            i < |r.tracked| && r.tracked[i] == s.tracked[i + 1]
  {
    var o := s.tracked[i];
    var s' := WarpAt(g, sender, target, i, s);
    ScanKeepsExaminedPrefix(g, sender, target, i + 1, s');
    assert s'.tracked[..i + 1][i] == s.tracked[i + 1];
  }

  /** Surviving objects keep their relative order. */
  lemma {:induction false} ScanKeepsOrder(g: Group, sender: PortalFrames, target: PortalFrames, i: nat, s: Scan)
    requires Covered(s)
    ensures IsSubsequence(ScanFrom(g, sender, target, i, s).tracked, s.tracked)
    decreases |s.tracked| - i
  {
    if i < |s.tracked| {
      var o := s.tracked[i];
      if BehindPortal(sender, s.states[o].position) {
        var s' := WarpAt(g, sender, target, i, s);
        ScanKeepsOrder(g, sender, target, i + 1, s');
        SubsequenceDrop(s.tracked, i);
        SubsequenceTrans(ScanFrom(g, sender, target, i + 1, s').tracked, s'.tracked, s.tracked);
      } else {
        ScanKeepsOrder(g, sender, target, i + 1, s);
      }
    } else {
      SubsequenceRefl(s.tracked);
    }
  }

  predicate Distinct<T(==)>(l: seq<T>) {
    forall j, k :: 0 <= j < k < |l| ==> l[j] != l[k]
  }

  lemma DropKeepsDistinct<T>(l: seq<T>, i: nat)
    requires Distinct(l) && i < |l|
    ensures Distinct(l[..i] + l[i + 1..]) && l[i] !in l[..i] + l[i + 1..]
  {
    var d := l[..i] + l[i + 1..];
    forall k | 0 <= k < |d| ensures d[k] == l[if k < i then k else k + 1] {
    }
  }

  /** What one tick did to object o, which was in slot i or later, given the state s before it and r after it. */
  ghost predicate WarpedIffRemoved(g: Group, sender: PortalFrames, target: PortalFrames, i: nat, s: Scan, r: Scan, o: PortalableObject)
    requires o in s.states && o in r.states && i <= |s.tracked|
  {
    if o in s.tracked[i..] && o !in r.tracked then
      && BehindPortal(sender, s.states[o].position)
      && r.states[o] == Warp(g, sender, target, o.hasNavMeshAgent, s.states[o])
      && (o.hasNavMeshAgent ==> r.states[o].agentEnabled)
    else r.states[o] == s.states[o]
  }

  /** The induction step of ScanWarpsExactlyTheRemoved for a removal at slot i. */
  lemma RemovalStep(g: Group, sender: PortalFrames, target: PortalFrames, i: nat, s: Scan, s': Scan, r: Scan)
    requires Covered(s) && i + 1 < |s.tracked| && Distinct(s.tracked)
    requires BehindPortal(sender, s.states[s.tracked[i]].position)
    requires s' == WarpAt(g, sender, target, i, s)
    requires r.states.Keys == s.states.Keys
    requires forall o :: o in s'.states ==> WarpedIffRemoved(g, sender, target, i + 1, s', r, o)
    requires i + 1 <= |r.tracked| && r.tracked[..i + 1] == s'.tracked[..i + 1]
    requires IsSubsequence(r.tracked, s'.tracked)
    ensures forall o :: o in s.states ==> WarpedIffRemoved(g, sender, target, i, s, r, o)
  {
    var o0 := s.tracked[i];
    DropKeepsDistinct(s.tracked, i);
    assert s.tracked[i..] == [o0, s.tracked[i + 1]] + s'.tracked[i + 1..];
    forall o | o in s.states ensures WarpedIffRemoved(g, sender, target, i, s, r, o) {
      assert WarpedIffRemoved(g, sender, target, i + 1, s', r, o);
      if o == o0 {
        if o0 in r.tracked {
          SubsequenceMembers(r.tracked, s'.tracked, o0);
        }
      } else if o == s.tracked[i + 1] {
        assert r.tracked[..i + 1][i] == o;
      }
    }
  }

  /** The induction step of ScanWarpsExactlyTheRemoved when slot i is kept. */
  lemma KeepStep(g: Group, sender: PortalFrames, target: PortalFrames, i: nat, s: Scan, r: Scan)
    requires Covered(s) && i < |s.tracked|
    requires r.states.Keys == s.states.Keys
    requires forall o :: o in s.states ==> WarpedIffRemoved(g, sender, target, i + 1, s, r, o)
    requires i + 1 <= |r.tracked| && r.tracked[..i + 1] == s.tracked[..i + 1]
    ensures forall o :: o in s.states ==> WarpedIffRemoved(g, sender, target, i, s, r, o)
  {
    var o0 := s.tracked[i];
    assert s.tracked[i..] == [o0] + s.tracked[i + 1..];
    assert r.tracked[..i + 1][i] == o0;
    forall o | o in s.states ensures WarpedIffRemoved(g, sender, target, i, s, r, o) {
      assert WarpedIffRemoved(g, sender, target, i + 1, s, r, o);
    }
  }

  /**
   * With no object tracked twice: an object from slot i on that the tick removes was behind
   * the surface and was warped once (its agent, if any, ends enabled); every other object's
   * state is untouched.
   */
  lemma {:induction false} ScanWarpsExactlyTheRemoved(g: Group, sender: PortalFrames, target: PortalFrames, i: nat, s: Scan)
    requires Covered(s) && i <= |s.tracked| && Distinct(s.tracked)
    ensures var r := ScanFrom(g, sender, target, i, s);
            forall o :: o in s.states ==> WarpedIffRemoved(g, sender, target, i, s, r, o)
    decreases |s.tracked| - i, 1
  {
    if i == |s.tracked| {
      assert s.tracked[i..] == [];
    } else if BehindPortal(sender, s.states[s.tracked[i]].position) {
      WarpsWhenRemoved(g, sender, target, i, s);
    } else {
      WarpsWhenKept(g, sender, target, i, s);
    }
  }

  /** ScanWarpsExactlyTheRemoved when the object at slot i is behind the surface. */
  lemma {:induction false} WarpsWhenRemoved(g: Group, sender: PortalFrames, target: PortalFrames, i: nat, s: Scan)
    requires Covered(s) && i < |s.tracked| && Distinct(s.tracked)
    requires BehindPortal(sender, s.states[s.tracked[i]].position)
    ensures var r := ScanFrom(g, sender, target, i, s);
            forall o :: o in s.states ==> WarpedIffRemoved(g, sender, target, i, s, r, o)
    decreases |s.tracked| - i, 0
  {
    var s' := WarpAt(g, sender, target, i, s);
    var r := ScanFrom(g, sender, target, i + 1, s');
    ScanStep(g, sender, target, i, s);
    DropKeepsDistinct(s.tracked, i);
    if i + 1 < |s.tracked| {
      ScanWarpsExactlyTheRemoved(g, sender, target, i + 1, s');
      ScanKeepsExaminedPrefix(g, sender, target, i + 1, s');
      ScanKeepsOrder(g, sender, target, i + 1, s');
      RemovalStep(g, sender, target, i, s, s', r);
    } else {
      assert s.tracked[i..] == [s.tracked[i]];
    }
  }

  /** ScanWarpsExactlyTheRemoved when the object at slot i stays. */
  lemma {:induction false} WarpsWhenKept(g: Group, sender: PortalFrames, target: PortalFrames, i: nat, s: Scan)
    requires Covered(s) && i < |s.tracked| && Distinct(s.tracked)
    requires !BehindPortal(sender, s.states[s.tracked[i]].position)
    ensures var r := ScanFrom(g, sender, target, i, s);
            forall o :: o in s.states ==> WarpedIffRemoved(g, sender, target, i, s, r, o)
    decreases |s.tracked| - i, 0
  {
    ScanStep(g, sender, target, i, s);
    ScanWarpsExactlyTheRemoved(g, sender, target, i + 1, s);
    ScanKeepsExaminedPrefix(g, sender, target, i + 1, s);
    KeepStep(g, sender, target, i, s, ScanFrom(g, sender, target, i, s));
  }

  /**
   * The converse of ScanWarpsExactlyTheRemoved for the object the loop examines in slot i:
   * with no object tracked twice, one behind the surface is removed and warped.
   */
  lemma ExaminedBehindIsRemoved(g: Group, sender: PortalFrames, target: PortalFrames, i: nat, s: Scan)
    requires Covered(s) && i < |s.tracked| && Distinct(s.tracked)
    requires BehindPortal(sender, s.states[s.tracked[i]].position)
    ensures var r := ScanFrom(g, sender, target, i, s);
            var o := s.tracked[i];
            && o !in r.tracked && o in r.warped
            && r.states[o] == Warp(g, sender, target, o.hasNavMeshAgent, s.states[o])
  {
    var o := s.tracked[i];
    var s' := WarpAt(g, sender, target, i, s);
    var r := ScanFrom(g, sender, target, i, s);
    ScanStep(g, sender, target, i, s);
    DropKeepsDistinct(s.tracked, i);
    ScanKeepsOrder(g, sender, target, i + 1, s');
    if o in r.tracked {
      SubsequenceMembers(r.tracked, s'.tracked, o);
    }
    ScanRemovesByWarping(g, sender, target, i + 1, s');
    assert r.warped[..|s'.warped|][|s.warped|] == o;
    if i + 1 <= |s'.tracked| {
      ScanWarpsExactlyTheRemoved(g, sender, target, i + 1, s');
      assert o !in s'.tracked[i + 1..];
    }
  }
}
