/**
 * The shot through portals that both generations of the player controller fire
 * (ShootRecursive in Assets/Scripts/PlayerController.cs and Assets/PlayerController.cs): a
 * raycast; a portal hit continues the ray from the target portal, up to a recursion limit, with
 * the target portal moved to a temporary layer so that the continued ray does not stop on it;
 * any other hit ends the shot with a damage message.
 *
 * Physics.Raycast is an input (`Raycast`): its result for a ray, given the object that is on
 * the temporary layer during the cast.
 */
module Shooting {
  import opened Geometry
  import opened Portals

  /** What Physics.Raycast reports: nothing, a collider with a Portal component, or any other collider. */
  datatype RayHit =
    | NoHit
    | PortalHit(portal: Portal, point: Vec3)
    | ColliderHit(collider: nat, point: Vec3, normal: Vec3)

  /** Physics.Raycast from a position along a direction, with the given object (if any) on the temporary layer. */
  type Raycast = (Vec3, Vec3, Portal?) -> RayHit

  /** The object moved to another layer during a cast, and the layer it had then. */
  datatype Ignoring = NotIgnoring | Ignoring(obj: Portal, layer: int)

  /** One raycast of a shot. */
  datatype Cast = Cast(position: Vec3, direction: Vec3, ignoring: Ignoring)

  /**
   * How a shot ends: the last ray hit nothing; it hit a non-portal collider, which is sent
   * OnDamage at the hit point; it hit a portal with the recursion limit reached; or it hit a
   * portal with no target, where reading the target throws.
   */
  datatype Ending =
    | Missed
    | Damaged(collider: nat, point: Vec3, normal: Vec3)
    | RecursionLimit
    | NoTargetThrows

  /** The raycasts of one shot, in order, and how it ended. */
  datatype Shot = Shot(casts: seq<Cast>, ending: Ending)

  /**
   * Every portal the raycast can report, ignoring nothing or ignoring a portal of the scene,
   * lies in the scene, and the scene holds the targets of its portals.
   */
  ghost predicate ClosedScene(raycast: Raycast, scene: set<Portal>)
    reads scene`target
  {
    && (forall a, b :: raycast(a, b, null).PortalHit? ==> raycast(a, b, null).portal in scene)
    && (forall a, b, c | c in scene :: raycast(a, b, c).PortalHit? ==> raycast(a, b, c).portal in scene)
    && (forall p :: p in scene && p.target != null ==> p.target in scene)
  }

  /** The object a cast ignores, as passed to the raycast. */
  function IgnoredObject(c: Cast): Portal? {
    if c.ignoring.Ignoring? then c.ignoring.obj else null
  }

  /** What the raycast reports for a recorded cast. */
  function HitOf(raycast: Raycast, c: Cast): RayHit {
    raycast(c.position, c.direction, IgnoredObject(c))
  }

  /**
   * The cast `next` continues `prev`: prev hit a portal with a target, and next starts at the
   * hit point mapped through that portal pair, along prev's direction mapped the same way, with
   * the target portal on tempLayer.
   */
  ghost predicate Follows(raycast: Raycast, tempLayer: int, prev: Cast, next: Cast)
    reads if HitOf(raycast, prev).PortalHit? then {HitOf(raycast, prev).portal} else {}
  {
    var hit := HitOf(raycast, prev);
    && hit.PortalHit? && hit.portal.target != null
    && next.ignoring == Ignoring(hit.portal.target, tempLayer)
    && next.position == TransformPositionBetweenPortals(hit.portal.frames, hit.portal.target.frames, hit.point)
    && next.direction == TransformDirectionBetweenPortals(hit.portal.frames, hit.portal.target.frames, prev.direction)
  }

  /**
   * ShootRecursive as a value: the shot fired from position along direction at recursion depth
   * `current`, with `ignore` on tempLayer during its first cast.
   */
  function Trace(raycast: Raycast, scene: set<Portal>, limit: int, tempLayer: int,
                 position: Vec3, direction: Vec3, current: int, ignore: Portal?): Shot
    requires ClosedScene(raycast, scene) && (ignore == null || ignore in scene)
    reads scene`target
    decreases limit - current
  {
    var cast := Cast(position, direction, if ignore == null then NotIgnoring else Ignoring(ignore, tempLayer));
    match raycast(position, direction, ignore)
    case NoHit => Shot([cast], Missed)
    case ColliderHit(c, point, normal) => Shot([cast], Damaged(c, point, normal))
    case PortalHit(portal, point) =>
      if current >= limit then Shot([cast], RecursionLimit)
      else if portal.target == null then Shot([cast], NoTargetThrows)
      else
        var rest := Trace(raycast, scene, limit, tempLayer,
                          TransformPositionBetweenPortals(portal.frames, portal.target.frames, point),
                          TransformDirectionBetweenPortals(portal.frames, portal.target.frames, direction),
                          current + 1, portal.target);
        Shot([cast] + rest.casts, rest.ending)
  }

  /**
   * A shot makes at least one and at most (limit - current) + 1 raycasts (one when the depth is
   * already at the limit); the recursion goes on only through portal hits below the limit.
   */
  lemma {:induction false} CastsBounded(raycast: Raycast, scene: set<Portal>, limit: int, tempLayer: int,
                                        position: Vec3, direction: Vec3, current: int, ignore: Portal?)
    requires ClosedScene(raycast, scene) && (ignore == null || ignore in scene)
    ensures var s := Trace(raycast, scene, limit, tempLayer, position, direction, current, ignore);
            1 <= |s.casts| <= (if current < limit then limit - current else 0) + 1
    decreases limit - current
  {
    var hit := raycast(position, direction, ignore);
    if hit.PortalHit? && current < limit && hit.portal.target != null {
      var t := hit.portal.target;
      CastsBounded(raycast, scene, limit, tempLayer,
                   TransformPositionBetweenPortals(hit.portal.frames, t.frames, hit.point),
                   TransformDirectionBetweenPortals(hit.portal.frames, t.frames, direction),
                   current + 1, t);
    }
  }

  /**
   * The chain of casts: the first starts where the shot starts and ignores `ignore`; each later
   * cast follows a portal hit of the one before, starts at the hit point mapped through that
   * portal pair, and ignores the target portal on tempLayer. Every cast but the last hit a portal.
   */
  lemma {:induction false} CastsFollowPortals(raycast: Raycast, scene: set<Portal>, limit: int, tempLayer: int,
                                              position: Vec3, direction: Vec3, current: int, ignore: Portal?)
    requires ClosedScene(raycast, scene) && (ignore == null || ignore in scene)
    ensures var s := Trace(raycast, scene, limit, tempLayer, position, direction, current, ignore);
            && s.casts[0].position == position && s.casts[0].direction == direction
            && IgnoredObject(s.casts[0]) == ignore
            && (forall k :: 0 <= k < |s.casts| && s.casts[k].ignoring.Ignoring? ==> s.casts[k].ignoring.layer == tempLayer)
            && forall k :: 0 < k < |s.casts| ==> Follows(raycast, tempLayer, s.casts[k - 1], s.casts[k])
    decreases limit - current
  {
    var s := Trace(raycast, scene, limit, tempLayer, position, direction, current, ignore);
    var hit := raycast(position, direction, ignore);
    if hit.PortalHit? && current < limit && hit.portal.target != null {
      var t := hit.portal.target;
      var p', d' := TransformPositionBetweenPortals(hit.portal.frames, t.frames, hit.point),
                    TransformDirectionBetweenPortals(hit.portal.frames, t.frames, direction);
      var rest := Trace(raycast, scene, limit, tempLayer, p', d', current + 1, t);
      CastsFollowPortals(raycast, scene, limit, tempLayer, p', d', current + 1, t);
      assert s.casts == [s.casts[0]] + rest.casts;
      forall k | 0 < k < |s.casts|
        ensures Follows(raycast, tempLayer, s.casts[k - 1], s.casts[k])
      {
        assert s.casts[k] == rest.casts[k - 1];
        if k > 1 {
          assert s.casts[k - 1] == rest.casts[k - 2];
        } else {
          assert HitOf(raycast, s.casts[0]) == hit;
        }
      }
    }
  }

  /**
   * The ending is decided by the last cast's hit: damage exactly when it hit a non-portal
   * collider (sent to that collider at the hit point), a miss when it hit nothing, and a
   * portal hit otherwise, which is dropped at the recursion limit and throws without a target.
   */
  lemma {:induction false} EndingIsLastHit(raycast: Raycast, scene: set<Portal>, limit: int, tempLayer: int,
                                           position: Vec3, direction: Vec3, current: int, ignore: Portal?)
    requires ClosedScene(raycast, scene) && (ignore == null || ignore in scene)
    ensures var s := Trace(raycast, scene, limit, tempLayer, position, direction, current, ignore);
            |s.casts| > 0 && EndsAsLastHit(raycast, s, current, limit)
    decreases limit - current, 1
  {
    var hit := raycast(position, direction, ignore);
    if hit.PortalHit? && current < limit && hit.portal.target != null {
      EndingThroughPortal(raycast, scene, limit, tempLayer, position, direction, current, ignore);
    } else {
      EndingAtFirstHit(raycast, scene, limit, tempLayer, position, direction, current, ignore);
    }
  }

  /** A shot whose first cast does not pass through a portal ends with that cast. */
  lemma EndingAtFirstHit(raycast: Raycast, scene: set<Portal>, limit: int, tempLayer: int,
                         position: Vec3, direction: Vec3, current: int, ignore: Portal?)
    requires ClosedScene(raycast, scene) && (ignore == null || ignore in scene)
    requires var hit := raycast(position, direction, ignore);
             !(hit.PortalHit? && current < limit && hit.portal.target != null)
    ensures var s := Trace(raycast, scene, limit, tempLayer, position, direction, current, ignore);
            |s.casts| > 0 && EndsAsLastHit(raycast, s, current, limit)
  {
    var s := Trace(raycast, scene, limit, tempLayer, position, direction, current, ignore);
    assert |s.casts| == 1 && IgnoredObject(s.casts[0]) == ignore;
  }

  /** A shot through a portal ends as the shot from the target does. */
  lemma {:induction false} EndingThroughPortal(raycast: Raycast, scene: set<Portal>, limit: int, tempLayer: int,
                                               position: Vec3, direction: Vec3, current: int, ignore: Portal?)
    requires ClosedScene(raycast, scene) && (ignore == null || ignore in scene)
    requires var hit := raycast(position, direction, ignore);
             hit.PortalHit? && current < limit && hit.portal.target != null
    ensures var s := Trace(raycast, scene, limit, tempLayer, position, direction, current, ignore);
            |s.casts| > 0 && EndsAsLastHit(raycast, s, current, limit)
    decreases limit - current, 0
  {
    var s := Trace(raycast, scene, limit, tempLayer, position, direction, current, ignore);
    var hit := raycast(position, direction, ignore);
    var t := hit.portal.target;
    var p', d' := TransformPositionBetweenPortals(hit.portal.frames, t.frames, hit.point),
                  TransformDirectionBetweenPortals(hit.portal.frames, t.frames, direction);
    var rest := Trace(raycast, scene, limit, tempLayer, p', d', current + 1, t);
    EndingIsLastHit(raycast, scene, limit, tempLayer, p', d', current + 1, t);
    assert s.casts == [s.casts[0]] + rest.casts && s.ending == rest.ending;
    EndsAsLastHitPrepend(raycast, s, rest, current, limit);
  }

  /** A shot that is one more cast in front of another, with the same ending, ends as that one does. */
  lemma EndsAsLastHitPrepend(raycast: Raycast, s: Shot, rest: Shot, current: int, limit: int)
    requires |rest.casts| > 0 && |s.casts| > 0
    requires s.casts == [s.casts[0]] + rest.casts && s.ending == rest.ending
    requires EndsAsLastHit(raycast, rest, current + 1, limit)
    ensures EndsAsLastHit(raycast, s, current, limit)
  {
    assert s.casts[|s.casts| - 1] == rest.casts[|rest.casts| - 1];
  }

  /**
   * The shot's ending as its last cast's hit decides it: damage exactly when that hit a
   * non-portal collider, a miss exactly when it hit nothing, and otherwise a portal hit at the
   * recursion limit or one without a target.
   */
  predicate EndsAsLastHit(raycast: Raycast, s: Shot, current: int, limit: int)
    requires |s.casts| > 0
    reads if HitOf(raycast, s.casts[|s.casts| - 1]).PortalHit? then {HitOf(raycast, s.casts[|s.casts| - 1]).portal} else {}
  {
    var last := HitOf(raycast, s.casts[|s.casts| - 1]);
    && (s.ending.Damaged? <==> last.ColliderHit?)
    && (last.ColliderHit? ==> s.ending == Damaged(last.collider, last.point, last.normal))
    && (s.ending == Missed <==> last.NoHit?)
    && (s.ending == RecursionLimit ==> last.PortalHit? && current + |s.casts| - 1 >= limit)
    && (s.ending == NoTargetThrows ==> last.PortalHit? && last.portal.target == null)
  }
}
