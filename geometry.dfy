/**
 * Vectors, frames and rotations as the portal code uses them.
 * The floating-point numerics behind Unity's Transform and Quaternion are not modelled:
 * a transform's point and direction maps are given as functions, and quaternion product
 * and inverse as the operations of an abstract group.
 */
module Geometry {

  /** A Unity Vector3. */
  datatype Vec3 = Vec3(x: real, y: real, z: real)

  /** A Unity Vector2. */
  datatype Vec2 = Vec2(x: real, y: real)

  /** Mathf.Clamp: below min gives min, otherwise above max gives max, otherwise the value itself. */
  function Clamp(value: real, min: real, max: real): real {
    if value < min then min else if value > max then max else value
  }

  /**
   * With min <= max the result lies in [min, max], equals the value exactly when the value lies
   * there already, is the nearest bound otherwise, and clamping twice changes nothing.
   */
  lemma ClampInRange(value: real, min: real, max: real)
    requires min <= max
    ensures min <= Clamp(value, min, max) <= max
    ensures Clamp(value, min, max) == value <==> min <= value <= max
    ensures value < min ==> Clamp(value, min, max) == min
    ensures value > max ==> Clamp(value, min, max) == max
    ensures Clamp(Clamp(value, min, max), min, max) == Clamp(value, min, max)
  {
  }

  /** A Unity Quaternion; only carried around, its arithmetic is the group below. */
  datatype Quat = Quat(x: real, y: real, z: real, w: real)

  /** A transform's maps between world space and its local space (InverseTransformX / TransformX). */
  datatype Frame = Frame(toLocal: Vec3 -> Vec3, toWorld: Vec3 -> Vec3)

  /** The two maps of a frame undo each other. */
  ghost predicate Invertible(f: Frame) {
    && (forall v :: f.toLocal(f.toWorld(v)) == v)
    && (forall v :: f.toWorld(f.toLocal(v)) == v)
  }

  /** Quaternion product, inverse and identity. */
  datatype Group = Group(mul: (Quat, Quat) -> Quat, inv: Quat -> Quat, one: Quat)

  ghost predicate IsGroup(g: Group) {
    && (forall a, b, c {:trigger g.mul(g.mul(a, b), c)} :: g.mul(g.mul(a, b), c) == g.mul(a, g.mul(b, c)))
    && (forall a {:trigger g.mul(g.one, a)} :: g.mul(g.one, a) == a)
    && (forall a {:trigger g.mul(a, g.one)} :: g.mul(a, g.one) == a)
    && (forall a {:trigger g.inv(a)} :: g.mul(g.inv(a), a) == g.one)
    && (forall a {:trigger g.inv(a)} :: g.mul(a, g.inv(a)) == g.one)
  }

  /** A Unity Transform as the portal code reads it: point maps, direction maps, world rotation. */
  datatype Xform = Xform(points: Frame, directions: Frame, rotation: Quat)

  /** A portal's own transform and the transform of its visible surface's normal (`portalNormal`). */
  datatype PortalFrames = PortalFrames(transform: Xform, portalNormal: Xform)

  /** Portal.TransformPositionBetweenPortals: into the sender's local space, out of the target's normal space. */
  function TransformPositionBetweenPortals(sender: PortalFrames, target: PortalFrames, position: Vec3): Vec3 {
    target.portalNormal.points.toWorld(sender.transform.points.toLocal(position))
  }

  /** Portal.TransformDirectionBetweenPortals: the same through the direction maps. */
  function TransformDirectionBetweenPortals(sender: PortalFrames, target: PortalFrames, direction: Vec3): Vec3 {
    target.portalNormal.directions.toWorld(sender.transform.directions.toLocal(direction))
  }

  /** Portal.TransformRotationBetweenPortals: target.portalNormal.rotation * Inverse(sender.rotation) * rotation. */
  function TransformRotationBetweenPortals(g: Group, sender: PortalFrames, target: PortalFrames, rotation: Quat): Quat {
    g.mul(g.mul(target.portalNormal.rotation, g.inv(sender.transform.rotation)), rotation)
  }

  /** A position keeps its offset: seen from the target's normal it sits where it sat relative to the sender. */
  lemma PositionKeepsLocalOffset(sender: PortalFrames, target: PortalFrames, position: Vec3)
    requires Invertible(target.portalNormal.points)
    ensures target.portalNormal.points.toLocal(TransformPositionBetweenPortals(sender, target, position))
         == sender.transform.points.toLocal(position)
  {
  }

  /** A direction keeps its orientation relative to the two frames in the same way. */
  lemma DirectionKeepsLocalOrientation(sender: PortalFrames, target: PortalFrames, direction: Vec3)
    requires Invertible(target.portalNormal.directions)
    ensures target.portalNormal.directions.toLocal(TransformDirectionBetweenPortals(sender, target, direction))
         == sender.transform.directions.toLocal(direction)
  {
  }

  /** The sender's own rotation is carried onto the target's normal rotation. */
  lemma SenderRotationMapsToTargetNormal(g: Group, sender: PortalFrames, target: PortalFrames)
    requires IsGroup(g)
    ensures TransformRotationBetweenPortals(g, sender, target, sender.transform.rotation) == target.portalNormal.rotation
  {
    var n, r := target.portalNormal.rotation, sender.transform.rotation;
    calc {
      g.mul(g.mul(n, g.inv(r)), r);
      g.mul(n, g.mul(g.inv(r), r));
      g.mul(n, g.one);
      n;
    }
  }

  /** The rotation map keeps the rotation relative to the frames: inv(normal_B) * map(r) == inv(sender_A) * r. */
  lemma RotationKeepsRelativeRotation(g: Group, sender: PortalFrames, target: PortalFrames, rotation: Quat)
    requires IsGroup(g)
    ensures g.mul(g.inv(target.portalNormal.rotation), TransformRotationBetweenPortals(g, sender, target, rotation))
         == g.mul(g.inv(sender.transform.rotation), rotation)
  {
    var n, s, r := target.portalNormal.rotation, sender.transform.rotation, rotation;
    calc {
      g.mul(g.inv(n), g.mul(g.mul(n, g.inv(s)), r));
      g.mul(g.inv(n), g.mul(n, g.mul(g.inv(s), r)));
      g.mul(g.mul(g.inv(n), n), g.mul(g.inv(s), r));
      g.mul(g.one, g.mul(g.inv(s), r));
      g.mul(g.inv(s), r);
    }
  }

  /**
   * Mapping A to B and back is the identity when each portal's normal has the same rotation
   * as its transform.
   */
  lemma RotationRoundTripWhenNormalsAgree(g: Group, a: PortalFrames, b: PortalFrames, rotation: Quat)
    requires IsGroup(g)
    requires a.portalNormal.rotation == a.transform.rotation
    requires b.portalNormal.rotation == b.transform.rotation
    ensures TransformRotationBetweenPortals(g, b, a, TransformRotationBetweenPortals(g, a, b, rotation)) == rotation
  {
    var ra, rb := a.transform.rotation, b.transform.rotation;
    var x := TransformRotationBetweenPortals(g, a, b, rotation);
    RotationKeepsRelativeRotation(g, a, b, rotation);
    calc {
      g.mul(g.mul(ra, g.inv(rb)), x);
      g.mul(ra, g.mul(g.inv(rb), x));
      g.mul(ra, g.mul(g.inv(ra), rotation));
      g.mul(g.mul(ra, g.inv(ra)), rotation);
      rotation;
    }
  }

  /** Componentwise addition: a group, standing in for rotations about one axis. */
  function Add(a: Quat, b: Quat): Quat { Quat(a.x + b.x, a.y + b.y, a.z + b.z, a.w + b.w) }
  function Neg(a: Quat): Quat { Quat(-a.x, -a.y, -a.z, -a.w) }
  const Translations: Group := Group(Add, Neg, Quat(0.0, 0.0, 0.0, 0.0))

  lemma TranslationsIsGroup()
    ensures IsGroup(Translations)
  {
  }

  /**
   * No round-trip law holds in general: the map inverts through the sender's transform but
   * maps forward through the target's normal, so a portal whose normal is turned against its
   * transform makes A -> B -> A rotate by that turn.
   */
  lemma RotationRoundTripFailsWhenNormalTurned(a: PortalFrames, b: PortalFrames)
    requires a.transform.rotation == Translations.one && a.portalNormal.rotation == Quat(0.0, 0.0, 1.0, 0.0)
    requires b.transform.rotation == Translations.one && b.portalNormal.rotation == Translations.one
    ensures TransformRotationBetweenPortals(Translations, b, a,
              TransformRotationBetweenPortals(Translations, a, b, Translations.one)) == a.portalNormal.rotation
  {
    var zero, turned := Translations.one, a.portalNormal.rotation;
    var there := TransformRotationBetweenPortals(Translations, a, b, zero);
    TranslationStep(a, b, zero, zero, zero);
    AddNegZero(zero);
    assert there == zero;
    TranslationStep(b, a, turned, zero, there);
    AddNegZero(turned);
  }

  lemma AddNegZero(q: Quat)
    ensures Add(Add(q, Neg(Translations.one)), Translations.one) == q
  {
    var zero := Quat(0.0, 0.0, 0.0, 0.0);
    assert Translations.one == zero;
    assert Neg(zero) == zero;
    var p := Add(q, zero);
    assert p.x == q.x && p.y == q.y && p.z == q.z && p.w == q.w;
    assert Add(p, zero) == p;
  }

  /** One map step in the translation group: normal + (-sender) + rotation. */
  lemma TranslationStep(sender: PortalFrames, target: PortalFrames, n: Quat, s: Quat, r: Quat)
    requires target.portalNormal.rotation == n && sender.transform.rotation == s
    ensures TransformRotationBetweenPortals(Translations, sender, target, r) == Add(Add(n, Neg(s)), r)
  {
  }
}
