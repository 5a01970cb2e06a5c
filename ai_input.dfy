/**
 * The AI driver of Assets/AIInput.cs. Each frame it lists the alive enemies, aims at and
 * shoots the last one in sight, or else follows a NavMesh path towards an alive enemy, corner by
 * corner; it tells its player controller what to do through RotateCamera, Shoot and Move calls,
 * which the model returns as `Commands`.
 *
 * Engine queries are inputs: Physics.Linecast (line of sight), Vector3.SignedAngle (the aim
 * angles), NavMesh.CalculatePath and NavMesh.SamplePosition, vector magnitude and the
 * normalised horizontal direction. Random.Range is a nondeterministic choice.
 */
module AI {
  import opened Wrappers
  import opened Geometry

  /** The pathfinding timer after one frame's countdown: it only runs while positive. */
  function CountDown(left: real, deltaTime: real): real {
    if left > 0.0 then left - deltaTime else left
  }

  /** The aim settings: zone half-widths in degrees and rotation speeds in degrees per second. */
  datatype AimSettings = AimSettings(deadZone: real, slowZone: real, shootZone: real,
                                     fastSpeed: real, slowSpeed: real)

  /** The zone a horizontal aim offset falls in. */
  datatype AimZone = FastNegative | FastPositive | SlowNegative | SlowPositive | DeadZone

  /** The zones, tested in this order: fast negative, fast positive, slow negative, slow positive, dead. */
  function ZoneOf(angle: real, a: AimSettings): AimZone {
    if angle < -a.slowZone then FastNegative
    else if angle > a.slowZone then FastPositive
    else if angle < -a.deadZone then SlowNegative
    else if angle > a.deadZone then SlowPositive
    else DeadZone
  }

  /**
   * The horizontal rotation as the source computes it. The negative slow zone snaps to
   * `aimDeadZone - angle`, which puts the aim on the far (positive) edge of the dead zone.
   */
  function HorizontalRotationAsWritten(angle: real, a: AimSettings, deltaTime: real): real {
    match ZoneOf(angle, a)
    case FastNegative =>
      var r := a.fastSpeed * deltaTime;
      if angle + r > -a.slowZone then -a.slowZone - angle else r
    case FastPositive =>
      var r := -a.fastSpeed * deltaTime;
      if angle + r < a.slowZone then a.slowZone - angle else r
    case SlowNegative =>
      var r := a.slowSpeed * deltaTime;
      if angle + r > -a.deadZone then a.deadZone - angle else r
    case SlowPositive =>
      var r := -a.slowSpeed * deltaTime;
      if angle + r < a.deadZone then a.deadZone - angle else r
    case DeadZone => 0.0
  }

  /**
   * The horizontal rotation with the negative slow zone snapping to the near edge of the dead
   * zone, `-aimDeadZone - angle`, as the other three snaps do for their zones.
   */
  function HorizontalRotation(angle: real, a: AimSettings, deltaTime: real): real {
    match ZoneOf(angle, a)
    case FastNegative =>
      var r := a.fastSpeed * deltaTime;
      if angle + r > -a.slowZone then -a.slowZone - angle else r
    case FastPositive =>
      var r := -a.fastSpeed * deltaTime;
      if angle + r < a.slowZone then a.slowZone - angle else r
    case SlowNegative =>
      var r := a.slowSpeed * deltaTime;
      if angle + r > -a.deadZone then -a.deadZone - angle else r
    case SlowPositive =>
      var r := -a.slowSpeed * deltaTime;
      if angle + r < a.deadZone then a.deadZone - angle else r
    case DeadZone => 0.0
  }

  /**
   * For non-negative steps the rotation turns towards zero and stops at the edge of the next
   * zone inward: a fast-zone aim ends at or outside the slow zone's edge, a slow-zone aim at or
   * outside the dead zone's edge, on its own side; the dead zone does not rotate. The rotation
   * is the full step whenever that stays outside the edge.
   */
  lemma RotationStopsAtZoneEdge(angle: real, a: AimSettings, deltaTime: real)
    requires a.fastSpeed * deltaTime >= 0.0 && a.slowSpeed * deltaTime >= 0.0
    ensures var r := HorizontalRotation(angle, a, deltaTime);
            match ZoneOf(angle, a)
            case FastNegative =>
              0.0 <= r && angle + r <= -a.slowZone
              && (angle + a.fastSpeed * deltaTime <= -a.slowZone ==> r == a.fastSpeed * deltaTime)
            case FastPositive =>
              r <= 0.0 && angle + r >= a.slowZone
              && (angle - a.fastSpeed * deltaTime >= a.slowZone ==> r == -a.fastSpeed * deltaTime)
            case SlowNegative =>
              0.0 <= r && angle + r <= -a.deadZone
              && (angle + a.slowSpeed * deltaTime <= -a.deadZone ==> r == a.slowSpeed * deltaTime)
            case SlowPositive =>
              r <= 0.0 && angle + r >= a.deadZone
              && (angle - a.slowSpeed * deltaTime >= a.deadZone ==> r == -a.slowSpeed * deltaTime)
            case DeadZone => r == 0.0
  {
  }

  /**
   * As written, a negative slow-zone aim whose step would enter the dead zone is turned to
   * +aimDeadZone instead of -aimDeadZone; everywhere else the two agree, and they agree
   * everywhere when the dead zone is 0.
   */
  lemma AsWrittenDiffersOnlyInNegativeSlowSnap(angle: real, a: AimSettings, deltaTime: real)
    ensures var w, c := HorizontalRotationAsWritten(angle, a, deltaTime), HorizontalRotation(angle, a, deltaTime);
            && ((ZoneOf(angle, a) == SlowNegative && angle + a.slowSpeed * deltaTime > -a.deadZone) ==>
                  angle + w == a.deadZone && angle + c == -a.deadZone)
            && (!(ZoneOf(angle, a) == SlowNegative && angle + a.slowSpeed * deltaTime > -a.deadZone) ==> w == c)
            && (a.deadZone == 0.0 ==> w == c)
  {
  }

  /**
   * An input that shows it: dead zone 5, slow zone 45, slow speed 30 per second, a 0.1 s frame
   * and an aim 6 degrees to the negative side. The step of 3 would end at -3, inside the dead
   * zone; the source turns by 11 to +5, past the target, where the intended snap turns by 1 to -5.
   */
  lemma NegativeSlowSnapOvershoots()
    ensures var a := AimSettings(5.0, 45.0, 20.0, 180.0, 30.0);
            && ZoneOf(-6.0, a) == SlowNegative
            && HorizontalRotationAsWritten(-6.0, a, 0.1) == 11.0
            && HorizontalRotation(-6.0, a, 0.1) == 1.0
  {
  }

  /** The AI shoots when the horizontal offset lies strictly inside the shoot zone. */
  predicate ShouldShoot(angle: real, a: AimSettings) {
    angle > -a.shootZone && angle < a.shootZone
  }

  /** A PlayerController of the enemy team, as AIInput reads it. */
  class Enemy {
    var isAlive: bool
    var position: Vec3

    constructor (isAlive: bool, position: Vec3)
      ensures this.isAlive == isAlive && this.position == position
    {
      this.isAlive, this.position := isAlive, position;
    }
  }

  /** The alive enemies, in team order. */
  function AliveOnes(enemies: seq<Enemy>): (r: seq<Enemy>)
    reads enemies
    ensures |r| <= |enemies|
  {
    if enemies == [] then []
    else AliveOnes(enemies[..|enemies| - 1])
         + (if enemies[|enemies| - 1].isAlive then [enemies[|enemies| - 1]] else [])
  }

  /** The alive list holds exactly the enemies that are alive. */
  lemma {:induction false} AliveOnesAreTheAlive(enemies: seq<Enemy>)
    ensures forall e :: e in AliveOnes(enemies) <==> e in enemies && e.isAlive
  {
    if enemies != [] {
      var init, last := enemies[..|enemies| - 1], enemies[|enemies| - 1];
      AliveOnesAreTheAlive(init);
      assert enemies == init + [last];
    }
  }

  /** The index of the last alive enemy in line of sight, if any. */
  function LastShootable(enemies: seq<Enemy>, hasLineOfSight: Vec3 -> bool): (r: Option<nat>)
    reads enemies
    ensures r.Some? ==> r.value < |enemies| && enemies[r.value].isAlive && hasLineOfSight(enemies[r.value].position)
                        && forall k :: r.value < k < |enemies| ==> !(enemies[k].isAlive && hasLineOfSight(enemies[k].position))
    ensures r.None? ==> forall k :: 0 <= k < |enemies| ==> !(enemies[k].isAlive && hasLineOfSight(enemies[k].position))
  {
    if enemies == [] then None
    else if enemies[|enemies| - 1].isAlive && hasLineOfSight(enemies[|enemies| - 1].position) then Some(|enemies| - 1)
    else LastShootable(enemies[..|enemies| - 1], hasLineOfSight)
  }

  /** FindEnemies after its first i enemies: the alive ones so far and the last shootable so far. */
  ghost predicate ScannedUpTo(enemies: seq<Enemy>, hasLineOfSight: Vec3 -> bool, i: nat, alive: seq<Enemy>, shootable: Enemy?)
    requires i <= |enemies|
    reads enemies
  {
    && alive == AliveOnes(enemies[..i])
    && shootable == if LastShootable(enemies[..i], hasLineOfSight).Some?
                    then enemies[LastShootable(enemies[..i], hasLineOfSight).value] else null
  }

  /** One more enemy extends the alive list by itself when alive, and becomes the last shootable when also in sight. */
  lemma ScanStep(enemies: seq<Enemy>, hasLineOfSight: Vec3 -> bool, i: nat)
    requires i < |enemies|
    ensures AliveOnes(enemies[..i + 1]) == AliveOnes(enemies[..i]) + (if enemies[i].isAlive then [enemies[i]] else [])
    ensures LastShootable(enemies[..i + 1], hasLineOfSight)
         == if enemies[i].isAlive && hasLineOfSight(enemies[i].position) then Some(i)
            else LastShootable(enemies[..i], hasLineOfSight)
  {
    assert enemies[..i + 1][..i] == enemies[..i];
  }

  /** The first corner within tolerance of position, if any. */
  function FirstCornerWithin(corners: seq<Vec3>, position: Vec3, tolerance: real,
                             distance: (Vec3, Vec3) -> real, from: nat): (r: Option<nat>)
    requires from <= |corners|
    ensures r.Some? ==> from <= r.value < |corners| && distance(position, corners[r.value]) < tolerance
                        && forall k :: from <= k < r.value ==> distance(position, corners[k]) >= tolerance
    ensures r.None? ==> forall k :: from <= k < |corners| ==> distance(position, corners[k]) >= tolerance
    decreases |corners| - from
  {
    if from == |corners| then None
    else if distance(position, corners[from]) < tolerance then Some(from)
    else FirstCornerWithin(corners, position, tolerance, distance, from + 1)
  }

  /** NavMeshPath.status. */
  datatype PathStatus = PathComplete | PathPartial | PathInvalid

  /** What NavMesh.CalculatePath leaves in the path object. */
  datatype NavPath = NavPath(status: PathStatus, corners: seq<Vec3>)

  /**
   * The engine queries the AI makes: CalculatePath from a position to a target;
   * SamplePosition near a position (None when nothing is found within range); the magnitude of
   * a - b; the normalised horizontal (x, z) part of a - b.
   */
  datatype Navigation = Navigation(calculatePath: (Vec3, Vec3) -> NavPath,
                                   samplePosition: Vec3 -> Option<Vec3>,
                                   distance: (Vec3, Vec3) -> real,
                                   directionXZ: (Vec3, Vec3) -> Vec2)

  /** A call of the player controller's Move: horizontal input, jump, relative to the world. */
  datatype MoveCall = MoveCall(delta: Vec2, jump: bool, relativeToWorld: bool)

  /**
   * The calls one Update makes on the player controller: RotateCamera's argument, whether it
   * called Shoot, and Move's arguments (None when the update threw before reaching Move).
   */
  datatype Commands = Commands(rotate: Option<Vec2>, shoot: bool, move: Option<MoveCall>)

  class AIInput {
    const aim: AimSettings
    const pathfindingInterval: real
    const pathfindingCornerRange: real

    var pathfindingIntervalLeft: real
    /** The path's corners; None for the source's null. */
    var pathCorners: Option<seq<Vec3>>
    var pathCurrentCornerIndex: int
    var movingCurrentTarget: Enemy?
    var aliveEnemies: seq<Enemy>

    constructor (aim: AimSettings, pathfindingInterval: real, pathfindingCornerRange: real)
      ensures this.aim == aim && this.pathfindingInterval == pathfindingInterval
      ensures this.pathfindingCornerRange == pathfindingCornerRange
      ensures pathfindingIntervalLeft == 0.0 && pathCorners == None && pathCurrentCornerIndex == 0
      ensures movingCurrentTarget == null && aliveEnemies == []
    {
      this.aim, this.pathfindingInterval, this.pathfindingCornerRange := aim, pathfindingInterval, pathfindingCornerRange;
      pathfindingIntervalLeft, pathCorners, pathCurrentCornerIndex := 0.0, None, 0;
      movingCurrentTarget, aliveEnemies := null, [];
    }

    /**
     * The enemy scan of Update: aliveEnemies is cleared and refilled with the alive enemies in
     * team order, and the shootable enemy is the last of them in line of sight.
     */
    method FindEnemies(enemies: seq<Enemy>, hasLineOfSight: Vec3 -> bool) returns (shootable: Enemy?)
      modifies this`aliveEnemies
      ensures aliveEnemies == AliveOnes(enemies)
      ensures shootable == if LastShootable(enemies, hasLineOfSight).Some? then enemies[LastShootable(enemies, hasLineOfSight).value] else null
    {
      shootable := null;
      aliveEnemies := [];
      var i := 0;
      while i < |enemies|
        invariant 0 <= i <= |enemies|
        invariant ScannedUpTo(enemies, hasLineOfSight, i, aliveEnemies, shootable)
      {
        var enemy := enemies[i];
        ScanStep(enemies, hasLineOfSight, i);
        if enemy.isAlive {
          aliveEnemies := aliveEnemies + [enemy];
          if hasLineOfSight(enemy.position) {
            shootable := enemy;
          }
        }
        i := i + 1;
      }
      assert enemies[..i] == enemies;
    }

    /**
     * Update, for one frame: the timer counts down; with an enemy in sight the AI aims at it
     * (and shoots inside the shoot zone); otherwise, with alive enemies, it recomputes its path
     * when the timer has run out and walks towards the current corner. `position` is the AI's
     * own position. An out-of-range corner index throws before Move is called.
     */
    method Update(deltaTime: real, enemies: seq<Enemy>, hasLineOfSight: Vec3 -> bool,
                  angles: Vec3 -> (real, real), position: Vec3, nav: Navigation) returns (cmds: Commands)
      modifies this`pathfindingIntervalLeft, this`aliveEnemies, this`pathCorners,
               this`pathCurrentCornerIndex, this`movingCurrentTarget
      ensures aliveEnemies == AliveOnes(enemies)
      ensures LastShootable(enemies, hasLineOfSight).Some? ==>
                var (h, v) := angles(enemies[LastShootable(enemies, hasLineOfSight).value].position);
                && cmds.rotate == Some(Vec2(-HorizontalRotationAsWritten(h, aim, deltaTime), v))
                && cmds.shoot == ShouldShoot(h, aim)
                && pathfindingIntervalLeft == CountDown(old(pathfindingIntervalLeft), deltaTime)
                && pathCorners == old(pathCorners) && movingCurrentTarget == old(movingCurrentTarget)
                && pathCurrentCornerIndex == old(pathCurrentCornerIndex)
                && cmds.move == Some(MoveCall(Vec2(0.0, 0.0), false, false))
      ensures LastShootable(enemies, hasLineOfSight).None? ==> cmds.rotate == None && !cmds.shoot
      ensures LastShootable(enemies, hasLineOfSight).None? && aliveEnemies == [] ==>
                && pathfindingIntervalLeft == CountDown(old(pathfindingIntervalLeft), deltaTime)
                && pathCorners == old(pathCorners) && movingCurrentTarget == old(movingCurrentTarget)
                && pathCurrentCornerIndex == old(pathCurrentCornerIndex)
                && cmds.move == Some(MoveCall(Vec2(0.0, 0.0), false, false))
      ensures LastShootable(enemies, hasLineOfSight).None? && aliveEnemies != [] && CountDown(old(pathfindingIntervalLeft), deltaTime) > 0.0 ==>
                && pathfindingIntervalLeft == CountDown(old(pathfindingIntervalLeft), deltaTime)
                && pathCorners == old(pathCorners) && movingCurrentTarget == old(movingCurrentTarget)
                && (cmds.move, pathCurrentCornerIndex) == Walk(pathCorners, old(pathCurrentCornerIndex), position, nav)
      ensures LastShootable(enemies, hasLineOfSight).None? && aliveEnemies != [] && CountDown(old(pathfindingIntervalLeft), deltaTime) <= 0.0 ==>
                && pathfindingIntervalLeft == pathfindingInterval
                && movingCurrentTarget != null
                && (old(movingCurrentTarget) != null && old(movingCurrentTarget).isAlive ==> movingCurrentTarget == old(movingCurrentTarget))
                && (movingCurrentTarget != old(movingCurrentTarget) ==> movingCurrentTarget in aliveEnemies)
                && (var path := nav.calculatePath(position, movingCurrentTarget.position);
                    && pathCorners == (if path.status == PathComplete then Some(path.corners) else None)
                    && (cmds.move, pathCurrentCornerIndex)
                       == Walk(pathCorners, if path.status == PathComplete then 0 else old(pathCurrentCornerIndex), position, nav))
    {
      var movementDelta := Vec2(0.0, 0.0);
      var movementJump := false;
      var movementRelativeToWorld := false;

      if pathfindingIntervalLeft > 0.0 {
        pathfindingIntervalLeft := pathfindingIntervalLeft - deltaTime;
      }

      var shootable := FindEnemies(enemies, hasLineOfSight);
      var rotate: Option<Vec2> := None;
      var shoot := false;
      if shootable != null {
        var (horizontalAngle, absoluteVerticalAngle) := angles(shootable.position);
        var horizontalRotation := HorizontalRotationAsWritten(horizontalAngle, aim, deltaTime);
        rotate := Some(Vec2(-horizontalRotation, absoluteVerticalAngle));
        shoot := ShouldShoot(horizontalAngle, aim);
      } else if |aliveEnemies| != 0 {
        var moved := FollowPath(position, nav);
        if moved.None? {
          return Commands(rotate, shoot, None);
        }
        movementDelta, movementRelativeToWorld := moved.value.delta, moved.value.relativeToWorld;
      }
      cmds := Commands(rotate, shoot, Some(MoveCall(movementDelta, movementJump, movementRelativeToWorld)));
    }

    /**
     * The pathfinding part of Update, with alive enemies and no enemy in sight: the path is
     * recalculated when the timer has run out, then the AI walks towards the current corner.
     */
    method FollowPath(position: Vec3, nav: Navigation) returns (moved: Option<MoveCall>)
      requires aliveEnemies != []
      modifies this`pathfindingIntervalLeft, this`pathCorners, this`pathCurrentCornerIndex, this`movingCurrentTarget
      ensures old(pathfindingIntervalLeft) > 0.0 ==>
                && pathfindingIntervalLeft == old(pathfindingIntervalLeft)
                && pathCorners == old(pathCorners) && movingCurrentTarget == old(movingCurrentTarget)
                && (moved, pathCurrentCornerIndex) == Walk(pathCorners, old(pathCurrentCornerIndex), position, nav)
      ensures old(pathfindingIntervalLeft) <= 0.0 ==>
                && pathfindingIntervalLeft == pathfindingInterval
                && movingCurrentTarget != null
                && (old(movingCurrentTarget) != null && old(movingCurrentTarget).isAlive ==> movingCurrentTarget == old(movingCurrentTarget))
                && (movingCurrentTarget != old(movingCurrentTarget) ==> movingCurrentTarget in aliveEnemies)
                && (var path := nav.calculatePath(position, movingCurrentTarget.position);
                    && pathCorners == (if path.status == PathComplete then Some(path.corners) else None)
                    && (moved, pathCurrentCornerIndex)
                       == Walk(pathCorners, if path.status == PathComplete then 0 else old(pathCurrentCornerIndex), position, nav))
    {
      if pathfindingIntervalLeft <= 0.0 {
        RecalculatePath(position, nav);
      }
      moved := WalkTowardsCorner(position, nav);
    }

    /**
     * The path recalculation of Update: the timer restarts; a missing or dead target is replaced
     * by a random alive enemy; a complete path to the target becomes the corners, from the first
     * one, and any other path clears them.
     */
    method RecalculatePath(position: Vec3, nav: Navigation)
      requires aliveEnemies != []
      modifies this`pathfindingIntervalLeft, this`movingCurrentTarget, this`pathCorners, this`pathCurrentCornerIndex
      ensures pathfindingIntervalLeft == pathfindingInterval
      ensures movingCurrentTarget != null
      ensures old(movingCurrentTarget) != null && old(movingCurrentTarget).isAlive ==> movingCurrentTarget == old(movingCurrentTarget)
      ensures movingCurrentTarget != old(movingCurrentTarget) ==> movingCurrentTarget in aliveEnemies
      ensures var path := nav.calculatePath(position, movingCurrentTarget.position);
              && pathCorners == (if path.status == PathComplete then Some(path.corners) else None)
              && pathCurrentCornerIndex == if path.status == PathComplete then 0 else old(pathCurrentCornerIndex)
    {
      pathfindingIntervalLeft := pathfindingInterval;
      if movingCurrentTarget == null || !movingCurrentTarget.isAlive {
        var k :| 0 <= k < |aliveEnemies|;
        movingCurrentTarget := aliveEnemies[k];
      }
      var path := nav.calculatePath(position, movingCurrentTarget.position);
      if path.status == PathComplete {
        pathCorners := Some(path.corners);
        pathCurrentCornerIndex := 0;
      } else {
        pathCorners := None;
      }
    }

    /**
     * The corner-walking step of Update: with a path and a sampled NavMesh position the AI moves
     * towards the current corner, relative to the world, and the index advances by one when the
     * corner is within range and is not the last. None when the index is out of range (the
     * source throws).
     */
    method WalkTowardsCorner(position: Vec3, nav: Navigation) returns (moved: Option<MoveCall>)
      modifies this`pathCurrentCornerIndex
      ensures (moved, pathCurrentCornerIndex) == Walk(pathCorners, old(pathCurrentCornerIndex), position, nav)
    {
      moved := Some(MoveCall(Vec2(0.0, 0.0), false, false));
      if pathCorners.Some? {
        var hit := nav.samplePosition(position);
        if hit.Some? {
          var corners := pathCorners.value;
          if !(0 <= pathCurrentCornerIndex < |corners|) {
            return None;
          }
          var corner := corners[pathCurrentCornerIndex];
          moved := Some(MoveCall(nav.directionXZ(corner, hit.value), false, true));
          if nav.distance(corner, hit.value) <= pathfindingCornerRange {
            if pathCurrentCornerIndex < |corners| - 1 {
              pathCurrentCornerIndex := pathCurrentCornerIndex + 1;
            }
          }
        }
      }
    }

    /** The move and the new corner index of the corner-walking step. */
    function Walk(corners: Option<seq<Vec3>>, index: int, position: Vec3, nav: Navigation): (Option<MoveCall>, int)
    {
      var hit := nav.samplePosition(position);
      if corners.None? || hit.None? then (Some(MoveCall(Vec2(0.0, 0.0), false, false)), index)
      else if !(0 <= index < |corners.value|) then (None, index)
      else
        var corner := corners.value[index];
        (Some(MoveCall(nav.directionXZ(corner, hit.value), false, true)),
         if nav.distance(corner, hit.value) <= pathfindingCornerRange && index < |corners.value| - 1 then index + 1 else index)
    }

    /**
     * One corner-walking step advances the index by at most one and never past the last
     * corner; only an index outside the corners (which the source would index with) stops it
     * before Move.
     */
    lemma WalkAdvancesAtMostOne(corners: Option<seq<Vec3>>, index: int, position: Vec3, nav: Navigation)
      ensures var (moved, next) := Walk(corners, index, position, nav);
              && (next == index || next == index + 1)
              && (next == index + 1 ==> corners.Some? && 0 <= index && next <= |corners.value| - 1)
              && (moved.None? <==> corners.Some? && nav.samplePosition(position).Some? && !(0 <= index < |corners.value|))
    {
    }

    /**
     * AttemptChangePathCurrentCorner: the reference corner (or, when asked and found, its
     * NavMesh sample) is compared with each corner in order; the first one closer than the
     * tolerance sets the index to its position plus indexOffset, unchecked, and the result is
     * true. Otherwise, or without a path, nothing changes and the result is false.
     */
    method AttemptChangePathCurrentCorner(referenceCorner: Vec3, samplePosition: bool, indexOffset: int,
                                          tolerance: real, nav: Navigation) returns (found: bool)
      modifies this`pathCurrentCornerIndex
      ensures var position := if samplePosition && nav.samplePosition(referenceCorner).Some?
                              then nav.samplePosition(referenceCorner).value else referenceCorner;
              var first := if pathCorners.Some? then FirstCornerWithin(pathCorners.value, position, tolerance, nav.distance, 0) else None;
              && (found <==> first.Some?)
              && pathCurrentCornerIndex == if first.Some? then first.value + indexOffset else old(pathCurrentCornerIndex)
    {
      var position;
      if samplePosition && nav.samplePosition(referenceCorner).Some? {
        position := nav.samplePosition(referenceCorner).value;
      } else {
        position := referenceCorner;
      }
      if pathCorners.Some? {
        var corners := pathCorners.value;
        var i := 0;
        while i < |corners|
          invariant 0 <= i <= |corners|
          invariant FirstCornerWithin(corners, position, tolerance, nav.distance, i) == FirstCornerWithin(corners, position, tolerance, nav.distance, 0)
        {
          if nav.distance(position, corners[i]) < tolerance {
            pathCurrentCornerIndex := i + indexOffset;
            return true;
          }
          i := i + 1;
        }
      }
      return false;
    }

    /** ForcePathRecalculate: the path is recomputed on the next update that reaches pathfinding. */
    method ForcePathRecalculate()
      modifies this`pathfindingIntervalLeft
      ensures pathfindingIntervalLeft == 0.0
    {
      pathfindingIntervalLeft := 0.0;
    }
  }
}
