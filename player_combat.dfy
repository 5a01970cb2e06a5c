/**
 * The player controller of Assets/Scripts/PlayerController.cs: health, death and respawn,
 * the shooting cooldown, the camera pitch clamp, the vertical speed of movement, and the shot
 * through portals with its blood effect taken from a pool.
 *
 * Frame time, the spawn point GameManager picks, the grounded flag of the CharacterController,
 * the gravity constant and the rotations Quaternion.Euler and Quaternion.LookRotation compute
 * are inputs. CharacterController.Move, the ragdoll impulse, animation, particles and audio are
 * not modelled; SetRagdoll is the `ragdoll` flag.
 */
module ScriptsPlayer {
  import opened Wrappers
  import opened Geometry
  import opened Portals
  import opened Pooling
  import opened Shooting

  /**
   * OnDamageOptions: the damage, and the hit point and normal. A shot ending in Damaged(c, p, n)
   * sends OnDamage to collider c with OnDamageOptions(shootingDamage, p, n).
   */
  datatype OnDamageOptions = OnDamageOptions(damage: int, point: Vec3, normal: Vec3)

  /** The layer a portal is moved to while a continued ray is cast (Unity's Ignore Raycast). */
  const IgnoreRaycastLayer: int := 2

  /** The pitch limits of the first-person camera, in degrees. */
  const MinPitch: real := -90.0
  const MaxPitch: real := 90.0

  class PlayerController {
    const jumpSpeed: real
    const gravityMultiplier: real
    const shootingPortalRecursions: int
    const shootingCooldown: real
    const shootingDamage: int
    const initialHealth: int
    const respawnTime: real
    const bloodEffectPoolManagerName: string

    var cameraRotX: real
    var ySpeed: real
    var shootingCooldownLeft: real
    var health: int
    var alive: bool
    var respawnTimeLeft: real
    /** SetRagdoll's state: true while the body is a ragdoll and the CharacterController is off. */
    var ragdoll: bool
    var position: Vec3
    var rotation: Quat
    var bloodEffectPoolManager: PoolManager?

    /** The component as the scene loads it: field initialisers only (health is 0 until Awake). */
    constructor (jumpSpeed: real, gravityMultiplier: real, shootingPortalRecursions: int,
                 shootingCooldown: real, shootingDamage: int, initialHealth: int, respawnTime: real,
                 bloodEffectPoolManagerName: string, position: Vec3, rotation: Quat)
      ensures this.jumpSpeed == jumpSpeed && this.gravityMultiplier == gravityMultiplier
      ensures this.shootingPortalRecursions == shootingPortalRecursions
      ensures this.shootingCooldown == shootingCooldown && this.shootingDamage == shootingDamage
      ensures this.initialHealth == initialHealth && this.respawnTime == respawnTime
      ensures this.bloodEffectPoolManagerName == bloodEffectPoolManagerName
      ensures this.position == position && this.rotation == rotation
      ensures alive && !ragdoll && health == 0 && bloodEffectPoolManager == null
      ensures cameraRotX == 0.0 && ySpeed == 0.0 && shootingCooldownLeft == 0.0 && respawnTimeLeft == 0.0
    {
      this.jumpSpeed, this.gravityMultiplier := jumpSpeed, gravityMultiplier;
      this.shootingPortalRecursions := shootingPortalRecursions;
      this.shootingCooldown, this.shootingDamage := shootingCooldown, shootingDamage;
      this.initialHealth, this.respawnTime := initialHealth, respawnTime;
      this.bloodEffectPoolManagerName := bloodEffectPoolManagerName;
      this.position, this.rotation := position, rotation;
      alive, ragdoll, health, bloodEffectPoolManager := true, false, 0, null;
      cameraRotX, ySpeed, shootingCooldownLeft, respawnTimeLeft := 0.0, 0.0, 0.0, 0.0;
    }

    /** Awake: health starts at initialHealth. */
    method Awake()
      modifies this`health
      ensures health == initialHealth
    {
      health := initialHealth;
    }

    /**
     * Start: the blood effect pool is looked up by name in PoolManager.instances; a missing
     * name throws (ok is false) and leaves the field as it was.
     */
    method Start(registry: PoolRegistry) returns (ok: bool)
      modifies this`bloodEffectPoolManager
      ensures ok <==> bloodEffectPoolManagerName in registry.instances
      ensures bloodEffectPoolManager == if ok then registry.instances[bloodEffectPoolManagerName] else old(bloodEffectPoolManager)
    {
      if bloodEffectPoolManagerName !in registry.instances {
        return false;
      }
      bloodEffectPoolManager := registry.instances[bloodEffectPoolManagerName];
      ok := true;
    }

    /**
     * Update: a running cooldown counts down; a dead player counts the respawn time down and,
     * on the first update that finds it at or below zero, respawns at `spawn`.
     */
    method Update(deltaTime: real, spawn: Pose)
      modifies this`shootingCooldownLeft, this`respawnTimeLeft, this`alive, this`health, this`ragdoll,
               this`position, this`rotation
      ensures shootingCooldownLeft == if old(shootingCooldownLeft) > 0.0 then old(shootingCooldownLeft) - deltaTime else old(shootingCooldownLeft)
      ensures old(alive) ==> alive && health == old(health) && respawnTimeLeft == old(respawnTimeLeft)
                             && ragdoll == old(ragdoll) && position == old(position) && rotation == old(rotation)
      ensures !old(alive) && old(respawnTimeLeft) > 0.0 ==>
                !alive && respawnTimeLeft == old(respawnTimeLeft) - deltaTime && health == old(health)
                && ragdoll == old(ragdoll) && position == old(position) && rotation == old(rotation)
      ensures !old(alive) && old(respawnTimeLeft) <= 0.0 ==>
                alive && health == initialHealth && !ragdoll && respawnTimeLeft == old(respawnTimeLeft)
                && position == spawn.position && rotation == spawn.rotation
    {
      if shootingCooldownLeft > 0.0 {
        shootingCooldownLeft := shootingCooldownLeft - deltaTime;
      }
      if !alive {
        if respawnTimeLeft > 0.0 {
          respawnTimeLeft := respawnTimeLeft - deltaTime;
        } else {
          Respawn(spawn);
        }
      }
    }

    /** Respawn: alive again at full initial health, ragdoll off, teleported to the spawn. */
    method Respawn(spawn: Pose)
      modifies this`alive, this`health, this`ragdoll, this`position, this`rotation
      ensures alive && health == initialHealth && !ragdoll
      ensures position == spawn.position && rotation == spawn.rotation
    {
      alive := true;
      health := initialHealth;
      ragdoll := false;
      position, rotation := spawn.position, spawn.rotation;
    }

    /**
     * RotateCamera: nothing while dead; otherwise the pitch moves by delta.y and is clamped to
     * [-90, 90], and the body turns by `turn` (Quaternion.Euler(0, delta.x, 0)) in its own frame.
     */
    method RotateCamera(g: Group, delta: Vec2, turn: Quat)
      modifies this`cameraRotX, this`rotation
      ensures !old(alive) ==> cameraRotX == old(cameraRotX) && rotation == old(rotation)
      ensures old(alive) ==> cameraRotX == Clamp(old(cameraRotX) + delta.y, MinPitch, MaxPitch)
                             && MinPitch <= cameraRotX <= MaxPitch
                             && rotation == g.mul(old(rotation), turn)
    {
      if !alive {
        return;
      }
      cameraRotX := cameraRotX + delta.y;
      cameraRotX := Clamp(cameraRotX, MinPitch, MaxPitch);
      ClampInRange(old(cameraRotX) + delta.y, MinPitch, MaxPitch);
      rotation := g.mul(rotation, turn);
    }

    /**
     * Shoot: nothing while dead or while the cooldown runs. Otherwise the shot is fired from
     * the raycast origin and, unless it throws on a portal without a target, the cooldown
     * restarts at shootingCooldown. Every portal's layer is as before.
     */
    method Shoot(raycast: Raycast, ghost scene: set<Portal>, origin: Vec3, forward: Vec3) returns (shot: Option<Shot>)
      requires ClosedScene(raycast, scene)
      modifies this`shootingCooldownLeft, scene`layer
      ensures forall p :: p in scene ==> p.layer == old(p.layer)
      ensures !alive || old(shootingCooldownLeft) > 0.0 ==> shot == None && shootingCooldownLeft == old(shootingCooldownLeft)
      ensures alive && old(shootingCooldownLeft) <= 0.0 ==>
                && shot == Some(Trace(raycast, scene, shootingPortalRecursions, IgnoreRaycastLayer, origin, forward, 0, null))
                && shootingCooldownLeft == if shot.value.ending == NoTargetThrows then old(shootingCooldownLeft) else shootingCooldown
    {
      if !alive {
        return None;
      }
      if shootingCooldownLeft > 0.0 {
        return None;
      }
      var s := ShootRecursive(raycast, scene, origin, forward, 0, null);
      shot := Some(s);
      if s.ending == NoTargetThrows {
        return;
      }
      shootingCooldownLeft := shootingCooldown;
    }

    /**
     * Move: nothing while dead. On the ground the vertical speed becomes jumpSpeed when jumping
     * and 0 otherwise; in the air gravity accumulates into it.
     */
    method Move(delta: Vec2, jump: bool, isGrounded: bool, gravityY: real, deltaTime: real)
      modifies this`ySpeed
      ensures !alive ==> ySpeed == old(ySpeed)
      ensures alive && isGrounded ==> ySpeed == if jump then jumpSpeed else 0.0
      ensures alive && !isGrounded ==> ySpeed == old(ySpeed) + gravityY * gravityMultiplier * deltaTime
    {
      if !alive {
        return;
      }
      if isGrounded {
        ySpeed := 0.0;
        if jump {
          ySpeed := jumpSpeed;
        }
      } else {
        ySpeed := ySpeed + gravityY * gravityMultiplier * deltaTime;
      }
    }

    /**
     * ShootRecursive: the target portal of the previous hit (ignore) is on Ignore Raycast for
     * exactly the one raycast, then back on its own layer; a portal hit below the recursion
     * limit continues through the pair. The shot is Trace, with each cast's recorded layer
     * read from the object during the cast.
     */
    method ShootRecursive(raycast: Raycast, ghost scene: set<Portal>, position: Vec3, direction: Vec3,
                          currentRecursion: int, ignoreObject: Portal?) returns (shot: Shot)
      requires ClosedScene(raycast, scene) && (ignoreObject == null || ignoreObject in scene)
      modifies scene`layer
      ensures shot == Trace(raycast, scene, shootingPortalRecursions, IgnoreRaycastLayer, position, direction, currentRecursion, ignoreObject)
      ensures forall p :: p in scene ==> p.layer == old(p.layer)
      decreases shootingPortalRecursions - currentRecursion
    {
      var ignoreObjectOriginalLayer := 0;
      if ignoreObject != null {
        ignoreObjectOriginalLayer := ignoreObject.layer;
        ignoreObject.layer := IgnoreRaycastLayer;
      }
      var hit := raycast(position, direction, ignoreObject);
      var cast := Cast(position, direction, if ignoreObject == null then NotIgnoring else Ignoring(ignoreObject, ignoreObject.layer));
      if ignoreObject != null {
        ignoreObject.layer := ignoreObjectOriginalLayer;
      }
      match hit {
        case NoHit =>
          shot := Shot([cast], Missed);
        case ColliderHit(c, point, normal) =>
          shot := Shot([cast], Damaged(c, point, normal));
        case PortalHit(portal, point) =>
          if currentRecursion < shootingPortalRecursions {
            if portal.target == null {
              return Shot([cast], NoTargetThrows);
            }
            var rest := ShootRecursive(raycast, scene,
                                       TransformPositionBetweenPortals(portal.frames, portal.target.frames, point),
                                       TransformDirectionBetweenPortals(portal.frames, portal.target.frames, direction),
                                       currentRecursion + 1, portal.target);
            shot := Shot([cast] + rest.casts, rest.ending);
          } else {
            shot := Shot([cast], RecursionLimit);
          }
      }
    }

    /**
     * OnDamage: a blood effect from the pool at the hit point, then the damage is taken, dead
     * or alive; a living player whose health drops to 0 or below dies once: ragdoll on and the
     * respawn timer set. Without a pool (Start not run) the first line throws and nothing
     * changes.
     */
    method OnDamage(options: OnDamageOptions, bloodRotation: Quat) returns (blood: PooledObject?)
      requires bloodEffectPoolManager != null ==> bloodEffectPoolManager.Valid()
      modifies this`health, this`alive, this`respawnTimeLeft, this`ragdoll
      modifies bloodEffectPoolManager, if bloodEffectPoolManager == null then [] else bloodEffectPoolManager.pooledObjects
      ensures old(bloodEffectPoolManager) == null ==>
                blood == null && health == old(health) && alive == old(alive)
                && respawnTimeLeft == old(respawnTimeLeft) && ragdoll == old(ragdoll)
      ensures var pool := old(bloodEffectPoolManager);
              pool != null ==>
                && pool.Valid()
                && pool.Flags() == Activate(old(pool.Flags()), pool.canExpand).flags
                && (blood != null ==> blood.position == options.point && blood.rotation == bloodRotation)
                && health == old(health) - options.damage
                && alive == (old(alive) && health > 0)
                && (old(alive) && health <= 0 ==> respawnTimeLeft == respawnTime && ragdoll)
                && (!(old(alive) && health <= 0) ==> respawnTimeLeft == old(respawnTimeLeft) && ragdoll == old(ragdoll))
    {
      var pool := bloodEffectPoolManager;
      if pool == null {
        return null;
      }
      blood := pool.ActivatePooledObjectAt(options.point, bloodRotation);
      health := health - options.damage;
      if alive && health <= 0 {
        alive := false;
        respawnTimeLeft := respawnTime;
        ragdoll := true;
      }
    }
  }
}
