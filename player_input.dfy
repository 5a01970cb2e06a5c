/**
 * The player controller of Assets/PlayerController.cs: each frame either steers the NavMesh
 * agent (AI) or reads mouse, keyboard and fire input (human), with the camera pitch clamp, the
 * vertical speed and the shot through portals.
 *
 * Input axes and buttons, frame count and frame time, the grounded flag, the gravity constant,
 * Quaternion.Euler's turn and the raycast are inputs; CharacterController.Move is not modelled.
 */
module AssetsPlayer {
  import opened Wrappers
  import opened Geometry
  import opened Portals
  import opened Shooting

  /** The frames on which the AI refreshes its destination: every 30th. */
  const AIDestinationPeriod: nat := 30

  /** One frame of human input: the mouse and movement axes, Jump held, Fire1 pressed this frame. */
  datatype InputFrame = InputFrame(mouseX: real, mouseY: real, vertical: real, horizontal: real,
                                   jumpHeld: bool, fire1Down: bool)

  /** A NavMeshAgent, reduced to the destination last set on it. */
  class NavAgent {
    var destination: Option<Vec3>

    constructor ()
      ensures destination == None
    {
      destination := None;
    }
  }

  class PlayerController {
    const isAI: bool
    const mouseSensitivity: Vec2
    const jumpSpeed: real
    const gravityMultiplier: real
    const shootingPortalRecursions: int
    const shootingRaycastTempPortalIgnoreLayer: int

    var cameraRotX: real
    var ySpeed: real
    var rotation: Quat
    var navMeshAgent: NavAgent?

    constructor (isAI: bool, mouseSensitivity: Vec2, jumpSpeed: real, gravityMultiplier: real,
                 shootingPortalRecursions: int, shootingRaycastTempPortalIgnoreLayer: int, rotation: Quat)
      ensures this.isAI == isAI && this.mouseSensitivity == mouseSensitivity
      ensures this.jumpSpeed == jumpSpeed && this.gravityMultiplier == gravityMultiplier
      ensures this.shootingPortalRecursions == shootingPortalRecursions
      ensures this.shootingRaycastTempPortalIgnoreLayer == shootingRaycastTempPortalIgnoreLayer
      ensures this.rotation == rotation && cameraRotX == 0.0 && ySpeed == 0.0 && navMeshAgent == null
    {
      this.isAI, this.mouseSensitivity := isAI, mouseSensitivity;
      this.jumpSpeed, this.gravityMultiplier := jumpSpeed, gravityMultiplier;
      this.shootingPortalRecursions := shootingPortalRecursions;
      this.shootingRaycastTempPortalIgnoreLayer := shootingRaycastTempPortalIgnoreLayer;
      this.rotation := rotation;
      cameraRotX, ySpeed, navMeshAgent := 0.0, 0.0, null;
    }

    /** Awake: an AI takes its NavMeshAgent component (null when it has none); a human takes none. */
    method Awake(agentComponent: NavAgent?)
      modifies this`navMeshAgent
      ensures navMeshAgent == if isAI then agentComponent else old(navMeshAgent)
    {
      if isAI {
        navMeshAgent := agentComponent;
      }
    }

    /**
     * Update: the AI path when isAI, the human input path otherwise. Only the human path can
     * shoot; the AI path changes only the agent's destination, the human path never touches it.
     */
    method Update(g: Group, frameCount: nat, player: Option<Vec3>, input: InputFrame, turn: Quat,
                  isGrounded: bool, gravityY: real, deltaTime: real,
                  raycast: Raycast, ghost scene: set<Portal>, origin: Vec3, forward: Vec3)
      returns (shot: Option<Shot>)
      requires ClosedScene(raycast, scene)
      modifies this`cameraRotX, this`ySpeed, this`rotation, scene`layer
      modifies if navMeshAgent == null then {} else {navMeshAgent}
      ensures forall p :: p in scene ==> p.layer == old(p.layer)
      ensures isAI ==> shot == None && cameraRotX == old(cameraRotX) && ySpeed == old(ySpeed) && rotation == old(rotation)
      ensures isAI && navMeshAgent != null ==>
                navMeshAgent.destination == if ShouldRefreshDestination(frameCount, player) then player else old(navMeshAgent.destination)
      ensures !isAI ==> navMeshAgent == null || navMeshAgent.destination == old(navMeshAgent.destination)
      ensures !isAI ==>
                && cameraRotX == Clamp(old(cameraRotX) + input.mouseY * -mouseSensitivity.y, MinPitch, MaxPitch)
                && ySpeed == NextYSpeed(old(ySpeed), isGrounded, input.jumpHeld, gravityY, deltaTime)
                && shot == if input.fire1Down then Some(Trace(raycast, scene, shootingPortalRecursions,
                                                              shootingRaycastTempPortalIgnoreLayer, origin, forward, 0, null))
                           else None
    {
      if isAI {
        UpdateAI(frameCount, player);
        shot := None;
      } else {
        shot := UpdatePlayerInput(g, input, turn, isGrounded, gravityY, deltaTime, raycast, scene, origin, forward);
      }
    }

    /**
     * UpdateAI: on frames divisible by 30, and only when a player exists, the agent's destination
     * becomes the player's position. With no agent the call throws and changes nothing.
     */
    method UpdateAI(frameCount: nat, player: Option<Vec3>)
      modifies if navMeshAgent == null then {} else {navMeshAgent}
      ensures navMeshAgent != null ==>
                navMeshAgent.destination == if ShouldRefreshDestination(frameCount, player) then player else old(navMeshAgent.destination)
    {
      if frameCount % AIDestinationPeriod == 0 && player.Some? {
        if navMeshAgent == null {
          return;
        }
        navMeshAgent.destination := player;
      }
    }

    /**
     * UpdatePlayerInput: the pitch moves by the mouse's vertical axis (inverted, scaled) and is
     * clamped to [-90, 90]; the body turns; the vertical speed follows the grounded rule; and a
     * Fire1 press fires one shot from the raycast origin.
     */
    method UpdatePlayerInput(g: Group, input: InputFrame, turn: Quat, isGrounded: bool, gravityY: real, deltaTime: real,
                             raycast: Raycast, ghost scene: set<Portal>, origin: Vec3, forward: Vec3)
      returns (shot: Option<Shot>)
      requires ClosedScene(raycast, scene)
      modifies this`cameraRotX, this`ySpeed, this`rotation, scene`layer
      ensures forall p :: p in scene ==> p.layer == old(p.layer)
      ensures cameraRotX == Clamp(old(cameraRotX) + input.mouseY * -mouseSensitivity.y, MinPitch, MaxPitch)
      ensures MinPitch <= cameraRotX <= MaxPitch
      ensures rotation == g.mul(old(rotation), turn)
      ensures ySpeed == NextYSpeed(old(ySpeed), isGrounded, input.jumpHeld, gravityY, deltaTime)
      ensures shot == if input.fire1Down then Some(Trace(raycast, scene, shootingPortalRecursions,
                                                         shootingRaycastTempPortalIgnoreLayer, origin, forward, 0, null))
                      else None
    {
      cameraRotX := cameraRotX + input.mouseY * -mouseSensitivity.y;
      cameraRotX := Clamp(cameraRotX, MinPitch, MaxPitch);
      ClampInRange(old(cameraRotX) + input.mouseY * -mouseSensitivity.y, MinPitch, MaxPitch);
      rotation := g.mul(rotation, turn);

      if isGrounded {
        ySpeed := 0.0;
        if input.jumpHeld {
          ySpeed := jumpSpeed;
        }
      } else {
        ySpeed := ySpeed + gravityY * gravityMultiplier * deltaTime;
      }

      shot := None;
      if input.fire1Down {
        var s := ShootRecursive(raycast, scene, origin, forward, 0, null);
        shot := Some(s);
      }
    }

    /** The vertical speed after one frame: jumpSpeed or 0 on the ground, gravity added in the air. */
    function NextYSpeed(ySpeed: real, isGrounded: bool, jump: bool, gravityY: real, deltaTime: real): real
      reads this
    {
      if isGrounded then (if jump then jumpSpeed else 0.0)
      else ySpeed + gravityY * gravityMultiplier * deltaTime
    }

    /**
     * ShootRecursive: the target portal of the previous hit is on the temporary ignore layer for
     * exactly the one raycast, then back on its own layer; a portal hit below the recursion limit
     * continues through the pair, any other collider is sent OnDamage (without options).
     */
    method ShootRecursive(raycast: Raycast, ghost scene: set<Portal>, position: Vec3, direction: Vec3,
                          currentRecursion: int, ignoreObject: Portal?) returns (shot: Shot)
      requires ClosedScene(raycast, scene) && (ignoreObject == null || ignoreObject in scene)
      modifies scene`layer
      ensures shot == Trace(raycast, scene, shootingPortalRecursions, shootingRaycastTempPortalIgnoreLayer,
                            position, direction, currentRecursion, ignoreObject)
      ensures forall p :: p in scene ==> p.layer == old(p.layer)
      decreases shootingPortalRecursions - currentRecursion
    {
      var ignoreObjectOriginalLayer := 0;
      if ignoreObject != null {
        ignoreObjectOriginalLayer := ignoreObject.layer;
        ignoreObject.layer := shootingRaycastTempPortalIgnoreLayer;
      }
      var hit := raycast(position, direction, ignoreObject);
      var cast := Cast(position, direction, if ignoreObject == null then NotIgnoring else Ignoring(ignoreObject, ignoreObject.layer));
      if ignoreObject != null {
        ignoreObject.layer := ignoreObjectOriginalLayer;
      }
      match hit {
        case NoHit =>
          shot := Shot([cast], Missed);
        case ColliderHit(c, point, normal) =>
          shot := Shot([cast], Damaged(c, point, normal));
        case PortalHit(portal, point) =>
          if currentRecursion < shootingPortalRecursions {
            if portal.target == null {
              return Shot([cast], NoTargetThrows);
            }
            var rest := ShootRecursive(raycast, scene,
                                       TransformPositionBetweenPortals(portal.frames, portal.target.frames, point),
                                       TransformDirectionBetweenPortals(portal.frames, portal.target.frames, direction),
                                       currentRecursion + 1, portal.target);
            shot := Shot([cast] + rest.casts, rest.ending);
          } else {
            shot := Shot([cast], RecursionLimit);
          }
      }
    }
  }

  /** The camera pitch limits, in degrees. */
  const MinPitch: real := -90.0
  const MaxPitch: real := 90.0

  /** UpdateAI's condition for setting a destination. */
  predicate ShouldRefreshDestination(frameCount: nat, player: Option<Vec3>) {
    frameCount % AIDestinationPeriod == 0 && player.Some?
  }

  /**
   * With a player present, refreshes come exactly 30 frames apart: after a refreshing frame
   * the next 29 frames do not refresh and the 30th does; without a player no frame refreshes.
   */
  lemma RefreshesThirtyFramesApart(f: nat, p: Vec3)
    requires ShouldRefreshDestination(f, Some(p))
    ensures ShouldRefreshDestination(f + 30, Some(p))
    ensures forall j: nat :: f < j < f + 30 ==> !ShouldRefreshDestination(j, Some(p))
    ensures !ShouldRefreshDestination(f, None)
  {
    forall j: nat | f < j < f + 30
      ensures !ShouldRefreshDestination(j, Some(p))
    {
      assert j == f + (j - f) && 0 < j - f < 30;
      assert j % 30 == (j - f) % 30;
    }
  }
}
