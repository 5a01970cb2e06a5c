# Portal Arena Shooter — a verified model of its game logic and CSG editor bookkeeping

Portal Arena Shooter is a Unity first-person shooter whose levels are joined by portals. A
portal tracks the objects that touch it and warps each one to its target portal once the object
is behind the portal surface. A camera-side renderer chooses which portals to draw. Players
shoot raycasts that go on through portals, take damage, die and respawn. AI players aim, shoot
and walk NavMesh paths. A game manager spawns players round-robin, and an object pool hands out
blood effects. The repository also vendors the RealtimeCSG level editor, whose mesh-instance
manager and scene queries are modelled here as well: surface classification, delayed
validation, lookup rebuilding, group lookups up the hierarchy, frustum point selection, ray
intersection selection and deep-click cycling.

This project models that logic in Dafny, one module per source file:

| module | file | models |
|---|---|---|
| `Wrappers` | wrappers.dfy | `Option` |
| `Geometry` | geometry.dfy | vectors, `Mathf.Clamp`, the three `Transform*BetweenPortals` maps over abstract frames and a rotation group |
| `Portals` | portal.dfy | `Portal` (Assets/Scripts/Portal.cs) |
| `PortalRendering` | portal_renderer.dfy | `PortalRenderer` (Assets/PortalRenderer.cs) |
| `Pooling` | pool_manager.dfy | `PoolManager` (Assets/PoolManager.cs) |
| `PortalSanityChecking` | portal_sanity_checker.dfy | the editor's sanity check (Assets/Scripts/Editor/PortalSanityChecker.cs) |
| `Shooting` | shooting.dfy | the recursive portal raycast that both player controllers share, as a trace of casts |
| `ScriptsPlayer` | player_combat.dfy | Assets/Scripts/PlayerController.cs |
| `AssetsPlayer` | player_input.dfy | the older Assets/PlayerController.cs |
| `AI` | ai_input.dfy | `AIInput` (Assets/AIInput.cs) |
| `Game` | game_manager.dfy | `GameManager` (Assets/Scripts/GameManager.cs) |
| `CSGSurfaces` | csg_surfaces.dfy | the pure switches of MeshInstanceManager.cs |
| `CSGMeshInstances` | csg_mesh_instances.dfy | the delayed-validation sets, the refresh counter and the lookup rebuild of MeshInstanceManager.cs |
| `CSGHierarchy` | csg_hierarchy.dfy | the parent-chain group lookups and the hidden-object search of SceneQueryUtility.cs |
| `CSGPoints` | csg_points.dfy | `GetPointsInFrustum` |
| `CSGIntersection` | csg_intersection.dfy | `FindWorldIntersection` and `FindMultiWorldIntersection` |
| `CSGDeepClick` | csg_deep_click.dfy | the deep-click part of `FindClickWorldIntersection` |

Components whose fields the source updates in place are classes: `Portal`, `PortalRenderer`,
`PoolManager`, both `PlayerController`s, `AIInput`, `GameManager`, the static state of
`MeshInstanceManager` and of the deep click. Their methods carry `modifies` clauses and state
the whole new state. Each loop is a `while`/`for` proved against a recursive specification
function. The facts the source promises are proved about those functions as lemmas.

The engine is outside the model. Raycasts, line casts, NavMesh queries, bounds tests,
`SignedAngle`, renderer visibility, the CSG ray casts, `IsSurfaceSelectable` and
`WillModelRender` are function-valued parameters or fields. Vector and quaternion numerics are
abstract frame maps and an abstract group. Time, frame counts, input axes and random picks are
parameters.

A few things the code does are easy to misread, and the model follows the code:

- Mapping a rotation to the target portal and back is not the identity. The code leaves the
  sender through `sender.transform` but enters the target through `target.portalNormal`.
  `Geometry.RotationRoundTripWhenNormalsAgree` proves the round trip only when each portal's
  normal has the portal's own rotation. `Geometry.RotationRoundTripFailsWhenNormalTurned`
  exhibits the failure otherwise.
- The pool has no size cap: with `canExpand` set it grows by one on every request that finds
  all objects active.
- The lookup rebuild of `ValidateGeneratedMeshesNow` destroys children while it walks them
  with `i++` against the live child count, so the child after each removed one is never
  examined: a valid instance there stays out of the lookup until the next validation
  (`CSGMeshInstances.PassedOverInstanceIsNotEntered`). `Portal.UpdateTeleport` passes over
  objects in the same way.
- A shot that hits a portal without a target throws. The model records this as an ending of
  its own (`NoTargetThrows`); the code does not skip such portals.

## Model

| member | source | states |
|---|---|---|
| Geometry.ClampInRange | Assets/Scripts/PlayerController.cs:148-149 | `Mathf.Clamp` lands in [min, max], is the identity exactly inside, gives min below and max above, and is idempotent |
| Geometry.PositionKeepsLocalOffset | Assets/Scripts/Portal.cs:22-27 | a mapped position sits in the target normal's local space where it sat in the sender's local space |
| Geometry.DirectionKeepsLocalOrientation | Assets/Scripts/Portal.cs:40-45 | a mapped direction has the same local components relative to the target normal as to the sender |
| Geometry.SenderRotationMapsToTargetNormal | Assets/Scripts/Portal.cs:58-64 | mapping the sender's own rotation yields the target normal's rotation |
| Geometry.RotationKeepsRelativeRotation | Assets/Scripts/Portal.cs:58-64 | inverse(target normal) * mapped rotation equals inverse(sender) * rotation |
| Geometry.RotationRoundTripWhenNormalsAgree | Assets/Scripts/Portal.cs:58-64 | A to B and back is the identity when each portal's normal rotation is its transform rotation |
| Geometry.RotationRoundTripFailsWhenNormalTurned | Assets/Scripts/Portal.cs:58-64 | with a normal turned against its portal's transform, the round trip does not return the rotation |
| Portals.Portal.constructor | Assets/Scripts/Portal.cs:90 | a new portal tracks no objects |
| Portals.Portal.OnTriggerEnter | Assets/Scripts/Portal.cs:204-214 | a collider with a PortalableObject is appended, duplicates included; one without is ignored |
| Portals.Portal.OnTriggerExit | Assets/Scripts/Portal.cs:216-224 | the first occurrence is removed; an absent object or one without the component changes nothing |
| Portals.RemoveFirst | Assets/Scripts/Portal.cs:222 | the list is unchanged when the object is absent, otherwise one shorter with exactly one occurrence fewer |
| Portals.RemoveFirstIsRemoveAt | Assets/Scripts/Portal.cs:222 | removing the first occurrence is RemoveAt at that occurrence's index |
| Portals.ExitUndoesEnter | Assets/Scripts/Portal.cs:204-224 | exit right after enter restores an untracked object's list; a tracked one loses its first occurrence and keeps the new last one |
| Portals.Portal.UpdateViewThrough | Assets/Scripts/Portal.cs:128-150 | the target's camera is enabled exactly when this renderer is visible; it is posed through the portal pair only when visible and a main camera exists |
| Portals.Portal.UpdateTeleport | Assets/Scripts/Portal.cs:164-202 | the tracked list and every tracked object's state end as the scan specification `ScanFrom` computes from slot 0 |
| Portals.Portal.TeleportIfBehind | Assets/Scripts/Portal.cs:172-199 | one loop body: an object behind the surface is warped and removed at slot i, any other object is left alone |
| Portals.Portal.WarpObject | Assets/Scripts/Portal.cs:177-193 | the pose is carried through the portal pair, and a NavMeshAgent ends enabled whatever its state before |
| Portals.Portal.LateUpdate | Assets/Scripts/Portal.cs:122-126 | the view-through update and then the teleport scan: the target camera's enabled flag and pose as `UpdateViewThrough` sets them, the tracked list and every tracked object's state as `ScanFrom` leaves them; without a target the first dereference throws and neither the list nor any object's state changes |
| Portals.WarpAt | Assets/Scripts/Portal.cs:172-199 | the removal step keeps every object's state defined and the set of objects unchanged |
| Portals.ScanFrom | Assets/Scripts/Portal.cs:166-201 | the scan from slot i keeps the set of objects whose states it tracks |
| Portals.ScanRemovesByWarping | Assets/Scripts/Portal.cs:166-201 | the list never grows; each removal adds exactly one warp; removed plus kept is the list before, as a multiset |
| Portals.ScanKeepsExaminedPrefix | Assets/Scripts/Portal.cs:166-201 | slots below i, already examined, are untouched by the rest of the scan |
| Portals.SlidElementSurvivesTick | Assets/Scripts/Portal.cs:166-199 | after RemoveAt(i), the element that slides into slot i is skipped and is still tracked at slot i when the tick ends |
| Portals.ScanKeepsOrder | Assets/Scripts/Portal.cs:166-201 | the surviving objects are a subsequence of the tracked list, in the same order |
| Portals.ScanWarpsExactlyTheRemoved | Assets/Scripts/Portal.cs:166-201 | with no duplicates, an object from the scanned slots is removed only if it was behind the surface; each removed one is warped once and its agent ends enabled; every other state is unchanged |
| Portals.ExaminedBehindIsRemoved | Assets/Scripts/Portal.cs:170-199 | with no duplicates, the object examined in slot i that is behind the surface is removed, recorded as warped, and its state is the warp of its old state |
| PortalRendering.FirstContainingFrom | Assets/PortalRenderer.cs:35-43 | the chosen volume is the first, in array order, whose bounds contain the camera; none when no volume does |
| PortalRendering.VisibleOnesAreTheVisible | Assets/PortalRenderer.cs:49-63 | the rendered portals are exactly the visible listed ones, in list order |
| PortalRendering.DirectCountIsVisibleCount | Assets/PortalRenderer.cs:46-61 | the direct count equals the number of visible listed portals when the list has no duplicates |
| PortalRendering.PortalRenderer.constructor | Assets/PortalRenderer.cs:14-17 | the flag as configured and both debug counters at 0 |
| PortalRendering.PortalRenderer.Start | Assets/PortalRenderer.cs:27-31 | the scene's portals and occlusion volumes are stored |
| PortalRendering.PortalRenderer.OnPreRender | Assets/PortalRenderer.cs:33-66 | picks the first containing volume, then its portals, all portals when `defaultRenderAllPortals`, or none; renders each visible one once in order; the direct count is reset and ends at the number rendered; the total count holds the last render count; without a main camera it throws at the first visible portal, rendering none and leaving the direct count at 0 |
| PortalRendering.PortalRenderer.OnPostRender | Assets/PortalRenderer.cs:68-71 | every post-render releases all portal render textures |
| Pooling.FirstInactive | Assets/PoolManager.cs:61-63 | the index of the first inactive object, or none when all are active |
| Pooling.AcquireSpec | Assets/PoolManager.cs:59-73 | returns the first inactive object and changes nothing; when all are active, grows by one inactive object if it may expand, else returns null; existing objects never change |
| Pooling.AcquireTwiceSame | Assets/PoolManager.cs:55-73 | two requests without activation return the same object and leave the same pool |
| Pooling.ActivateSpec | Assets/PoolManager.cs:101-112 | activation fails exactly when acquisition does; on success the object was inactive or new and is now active, and no other object changes |
| Pooling.ActivateTwiceDiffers | Assets/PoolManager.cs:101-112 | two successful activations in a row hand out different objects |
| Pooling.PoolRegistry.constructor | Assets/PoolManager.cs:10 | the static registry starts empty |
| Pooling.PoolManager.constructor | Assets/PoolManager.cs:12-26 | the configured settings and an empty pool |
| Pooling.PoolManager.Awake | Assets/PoolManager.cs:28-31 | the registry maps the pool's name to this pool and is otherwise unchanged |
| Pooling.PoolManager.Start | Assets/PoolManager.cs:33-39 | exactly `initialCount` new objects (none for a negative count) are appended, all inactive |
| Pooling.PoolManager.Update | Assets/PoolManager.cs:41-45 | the debug count is the pool size when debugging is on, otherwise unchanged |
| Pooling.PoolManager.InstantiateNewPooledObject | Assets/PoolManager.cs:47-53 | one fresh inactive object is appended and returned |
| Pooling.PoolManager.GetAvaliablePooledObject | Assets/PoolManager.cs:59-73 | the result and the new active flags are those of `Acquire`; old objects keep their places; a new object is fresh |
| Pooling.PoolManager.ActivatePooledObjectAt | Assets/PoolManager.cs:81-93 | the flags become those of `Activate`, an activated object is posed at the given position and rotation, and every other old object keeps its pose |
| Pooling.PoolManager.ActivatePooledObject | Assets/PoolManager.cs:101-112 | the flags become those of `Activate`; old objects keep their places and their poses |
| PortalSanityChecking.Line | Assets/Scripts/Editor/PortalSanityChecker.cs:19-36 | every defect message is non-empty and ends in a newline |
| PortalSanityChecking.DoIt | Assets/Scripts/Editor/PortalSanityChecker.cs:9-43 | the dialog text is one line per defect in portal order, or "No errors found!" when there is none |
| PortalSanityChecking.CheckPortal | Assets/Scripts/Editor/PortalSanityChecker.cs:16-37 | one portal's lines are appended to the buffer |
| PortalSanityChecking.TextEmptyIffNoDefects | Assets/Scripts/Editor/PortalSanityChecker.cs:11-40 | the buffer is empty iff there is no defect, and otherwise ends in a newline |
| PortalSanityChecking.NoTargetReportedAlone | Assets/Scripts/Editor/PortalSanityChecker.cs:17-21 | a portal without a target yields only the "does not have a target." line and no scale check |
| PortalSanityChecking.LinkedPortalDefects | Assets/Scripts/Editor/PortalSanityChecker.cs:24-37 | with a target: "does not link back" iff the target's target is another portal; a scale line iff some axis differs by more than 0.01 |
| PortalSanityChecking.CleanPairIsSilent | Assets/Scripts/Editor/PortalSanityChecker.cs:17-37 | a portal linked both ways with matching scales contributes nothing |
| PortalSanityChecking.DialogIsReportOrAllClear | Assets/Scripts/Editor/PortalSanityChecker.cs:40-41 | the dialog reads "No errors found!" iff there is no defect, and otherwise is the concatenated lines |
| Shooting.CastsBounded | Assets/Scripts/PlayerController.cs:240-248 | one shot makes at least one raycast, and at most (limit - depth) + 1 of them below the limit and exactly one at or past it |
| Shooting.CastsFollowPortals | Assets/Scripts/PlayerController.cs:207-248 | each later cast starts at the previous portal hit mapped through the pair and ignores the target portal on the temporary layer |
| Shooting.EndingIsLastHit | Assets/Scripts/PlayerController.cs:233-258 | damage is sent iff the last cast hit a non-portal collider; a miss has no effect; a portal hit ends the shot only at the limit or without a target |
| ScriptsPlayer.PlayerController.Awake | Assets/Scripts/PlayerController.cs:82-86 | health starts at `initialHealth` |
| ScriptsPlayer.PlayerController.Start | Assets/Scripts/PlayerController.cs:88-101 | the blood pool is looked up by name; a missing name throws and leaves the field unset |
| ScriptsPlayer.PlayerController.Update | Assets/Scripts/PlayerController.cs:108-125 | a running cooldown counts down; a dead player counts the respawn time down, and the first update with it at or below 0 respawns |
| ScriptsPlayer.PlayerController.Respawn | Assets/Scripts/PlayerController.cs:127-139 | alive, at full initial health, ragdoll off, at the given spawn |
| ScriptsPlayer.PlayerController.RotateCamera | Assets/Scripts/PlayerController.cs:141-154 | no-op when dead; otherwise the pitch is clamped to [-90, 90] and the yaw turns |
| ScriptsPlayer.PlayerController.Shoot | Assets/Scripts/PlayerController.cs:156-176 | nothing when dead or cooling down; otherwise one traced shot, the cooldown reset to `shootingCooldown`, and every layer restored |
| ScriptsPlayer.PlayerController.Move | Assets/Scripts/PlayerController.cs:178-205 | no-op when dead; grounded gives jump speed or 0; airborne accumulates gravity |
| ScriptsPlayer.PlayerController.ShootRecursive | Assets/Scripts/PlayerController.cs:207-259 | the shot is the trace with ignore layer 2, and every portal's layer ends as it was |
| ScriptsPlayer.PlayerController.OnDamage | Assets/Scripts/PlayerController.cs:262-277 | a blood effect is activated; damage is always subtracted; a living player at or below 0 dies once with the respawn timer set; without a pool it throws first |
| AssetsPlayer.PlayerController.Awake | Assets/PlayerController.cs:45-49 | the NavMeshAgent is fetched only for an AI |
| AssetsPlayer.PlayerController.Update | Assets/PlayerController.cs:61-65 | the AI path runs iff `isAI`, otherwise the human input path |
| AssetsPlayer.PlayerController.UpdateAI | Assets/PlayerController.cs:67-71 | the destination is set to the player's position only when the frame count is a multiple of 30 and a player exists |
| AssetsPlayer.RefreshesThirtyFramesApart | Assets/PlayerController.cs:69-70 | with a player, refreshes come exactly 30 frames apart; without one, never |
| AssetsPlayer.PlayerController.UpdatePlayerInput | Assets/PlayerController.cs:73-112 | the pitch is clamped into [-90, 90]; grounded gives jump speed or 0, airborne adds gravity; Fire1 fires one traced shot; layers are restored |
| AssetsPlayer.PlayerController.ShootRecursive | Assets/PlayerController.cs:114-162 | the shot is the trace with the configured temporary layer, and every portal's layer ends as it was |
| AI.RotationStopsAtZoneEdge | Assets/AIInput.cs:89-127 | in each zone the turn moves toward the target at the zone's speed and is snapped so it never crosses into the next inner zone; the dead zone turns by 0 |
| AI.AsWrittenDiffersOnlyInNegativeSlowSnap | Assets/AIInput.cs:107-114 | the code as written differs from the corrected rule only in a snapped negative slow-zone turn, which ends at +aimDeadZone; with a zero dead zone they agree |
| AI.NegativeSlowSnapOvershoots | Assets/AIInput.cs:107-114 | a concrete aim where the code turns by 11 degrees, past the target, instead of 1 |
| AI.AliveOnes | Assets/AIInput.cs:65-76 | exactly the alive enemies, in team order |
| AI.LastShootable | Assets/AIInput.cs:63-76 | the last alive enemy in team order with line of sight, or none |
| AI.FirstCornerWithin | Assets/AIInput.cs:231-240 | the first corner closer than the tolerance, or none |
| AI.AIInput.constructor | Assets/AIInput.cs:26-37 | no path, corner index 0, no target and no alive enemies |
| AI.AIInput.FindEnemies | Assets/AIInput.cs:63-76 | the alive list is refilled and the shootable enemy is the last shootable one |
| AI.AIInput.Update | Assets/AIInput.cs:53-207 | with a shootable enemy: the turn as written (`HorizontalRotationAsWritten`, snapping to +aimDeadZone on the negative slow side), a shot iff strictly inside the shoot zone, a zero move and no path work; otherwise a path step when enemies are alive, and nothing when none is |
| AI.AIInput.RecalculatePath | Assets/AIInput.cs:152-177 | the timer is reset to the interval; a living target is kept, otherwise an alive enemy is chosen; a complete path sets the corners and index 0, any other clears the corners |
| AI.AIInput.WalkTowardsCorner | Assets/AIInput.cs:179-198 | the move and the new corner index are those of the corner-walking step `Walk` |
| AI.AIInput.WalkAdvancesAtMostOne | Assets/AIInput.cs:188-196 | one step advances the corner index by at most one and never past the last corner |
| AI.AIInput.AttemptChangePathCurrentCorner | Assets/AIInput.cs:218-244 | true iff some corner lies within the tolerance; the index becomes the first such index plus `indexOffset`, unchecked, otherwise it is unchanged |
| AI.AIInput.ForcePathRecalculate | Assets/AIInput.cs:249-252 | the timer is set to 0 |
| Game.SpawnIndexAfterIsModulo | Assets/Scripts/GameManager.cs:60-66 | after k spawns the index is k mod Length and lies in [0, Length) |
| Game.GameManager.constructor | Assets/Scripts/GameManager.cs:18-19 | the spawn index starts at 0 with no local player |
| Game.GameManager.Start | Assets/Scripts/GameManager.cs:37-47 | spawns at once when already connected, otherwise asks to connect |
| Game.GameManager.OnConnectedToMaster | Assets/Scripts/GameManager.cs:49-53 | one join-or-create request for "Test Room" |
| Game.GameManager.OnJoinedRoom | Assets/Scripts/GameManager.cs:55-58 | one spawn |
| Game.GameManager.StartNetworked | Assets/Scripts/GameManager.cs:60-70 | the player spawns at the current spawn point, the index advances and wraps to 0 at Length, `localPlayer` is assigned; with no spawn points it throws |
| CSGSurfaces.SurfaceTypeClassification | Assets/Plugins/RealtimeCSG/Editor/Scripts/Control/Managers/MeshInstanceManager.cs:611-658 | Culled first; the render parameter maps the render variants to Normal, ReceiveShadows to Hidden and cast shadows to ShadowOnly; the physics parameter and Collidable give Trigger iff IsTrigger, else Collider |
| CSGSurfaces.StaticFlagsByType | Assets/Plugins/RealtimeCSG/Editor/Scripts/Control/Managers/MeshInstanceManager.cs:951-976 | Normal keeps the flags and adds NavigationStatic; ShadowOnly clears NavigationStatic, ContributeGI and ReflectionProbeStatic; every other type gives none |
| CSGSurfaces.HelperAndRuntimeSurfaces | Assets/Plugins/RealtimeCSG/Editor/Scripts/Control/Managers/MeshInstanceManager.cs:410-454 | Normal surfaces are never drawn as helpers; ShadowOnly follows the cast-shadows toggle; a runtime mesh exists iff the type is neither Culled nor Hidden |
| CSGMeshInstances.LiveModelsMembers | Assets/Plugins/RealtimeCSG/Editor/Scripts/Control/Managers/MeshInstanceManager.cs:192-197 | a model is queued by the first loop exactly when some list entry holds it and is not destroyed |
| CSGMeshInstances.EmptyLookupsMembers | Assets/Plugins/RealtimeCSG/Editor/Scripts/Control/Managers/MeshInstanceManager.cs:220-236 | a container is queued by the second loop exactly when a live model has it and its lookup is missing or empty |
| CSGMeshInstances.CountedPositions | Assets/Plugins/RealtimeCSG/Editor/Scripts/Control/Managers/MeshInstanceManager.cs:1520-1528 | exactly the live models that own their container, in list order |
| CSGMeshInstances.ScanRefreshesPicked | Assets/Plugins/RealtimeCSG/Editor/Scripts/Control/Managers/MeshInstanceManager.cs:1519-1547 | the pass refreshes exactly the picked counted models, queues the containers with a missing instance, and counts every counted model |
| CSGMeshInstances.RefreshCounterCycles | Assets/Plugins/RealtimeCSG/Editor/Scripts/Control/Managers/MeshInstanceManager.cs:1549-1552 | the counter stays in [0, count]; a non-forced pass refreshes at most one model, the one numbered like the counter, and none when the counter equals the count |
| CSGMeshInstances.ClassifiedMapsFirst | Assets/Plugins/RealtimeCSG/Editor/Scripts/Control/Managers/MeshInstanceManager.cs:1706-1727 | over the children in the order examined, each key maps to the first valid instance with that key, and every examined valid instance's key is present |
| CSGMeshInstances.ClassifiedDestroysUnkept | Assets/Plugins/RealtimeCSG/Editor/Scripts/Control/Managers/MeshInstanceManager.cs:1706-1727 | of the examined children, Destroy is called, in order, on exactly those that are not the one their key maps to |
| CSGMeshInstances.RebuiltLookupMapsFirst | Assets/Plugins/RealtimeCSG/Editor/Scripts/Control/Managers/MeshInstanceManager.cs:1700-1728 | the rebuild's lookup and destroyed children are that classification of the children it examines: each key holds the first examined valid instance with that key, and the examined children not kept are destroyed |
| CSGMeshInstances.RebuildKeepsExaminedPrefix | Assets/Plugins/RealtimeCSG/Editor/Scripts/Control/Managers/MeshInstanceManager.cs:1701-1728 | the slots before i keep their children |
| CSGMeshInstances.SlidChildIsPassedOver | Assets/Plugins/RealtimeCSG/Editor/Scripts/Control/Managers/MeshInstanceManager.cs:1701-1728 | after a child is destroyed and removed, the child that slides into its slot is passed over by `i++` and is still in that slot at the end |
| CSGMeshInstances.UndestroyableChildStays | Assets/Plugins/RealtimeCSG/Editor/Scripts/Control/Managers/MeshInstanceManager.cs:57-96 | a rejected child whose DestroyImmediate throws stays in its slot |
| CSGMeshInstances.PassedOverInstanceIsNotEntered | Assets/Plugins/RealtimeCSG/Editor/Scripts/Control/Managers/MeshInstanceManager.cs:1701-1728 | a child without an instance followed by a valid instance: the instance is never examined and the lookup stays empty |
| CSGMeshInstances.RebuildExaminesInOrder | Assets/Plugins/RealtimeCSG/Editor/Scripts/Control/Managers/MeshInstanceManager.cs:1701-1728 | the examined children are the original ones in sibling order, with the passed-over ones left out |
| CSGMeshInstances.RebuildKeepsOrder | Assets/Plugins/RealtimeCSG/Editor/Scripts/Control/Managers/MeshInstanceManager.cs:1701-1728 | the children left under the container are the original ones in order, with the removed ones left out |
| CSGMeshInstances.GeneratedMeshes.RebuildLookup | Assets/Plugins/RealtimeCSG/Editor/Scripts/Control/Managers/MeshInstanceManager.cs:1700-1728 | the loop over the live child count leaves the children, the lookup and the destroyed children of `RebuiltLookup` |
| CSGMeshInstances.ValidateGeneratedMeshesNow | Assets/Plugins/RealtimeCSG/Editor/Scripts/Control/Managers/MeshInstanceManager.cs:1675-1728 | skipped in play mode or without a container; a container without an owner is destroyed; otherwise the lookup is rebuilt and the children are those `RebuiltLookup` leaves |
| CSGMeshInstances.MeshInstanceManager.constructor | Assets/Plugins/RealtimeCSG/Editor/Scripts/Control/Managers/MeshInstanceManager.cs:185-187 | the three pending sets start empty, the ignore flag off and the counter at 0 |
| CSGMeshInstances.MeshInstanceManager.ValidateModelDelayed | Assets/Plugins/RealtimeCSG/Editor/Scripts/Control/Managers/MeshInstanceManager.cs:255-269 | nothing while ignoring; with children the model moves to the with-children set; without, it joins the other set unless already waiting with children; the sets stay disjoint |
| CSGMeshInstances.MeshInstanceManager.ValidateGeneratedMeshesDelayed | Assets/Plugins/RealtimeCSG/Editor/Scripts/Control/Managers/MeshInstanceManager.cs:249-252 | the container joins the pending set |
| CSGMeshInstances.MeshInstanceManager.Update | Assets/Plugins/RealtimeCSG/Editor/Scripts/Control/Managers/MeshInstanceManager.cs:189-247 | validates the waiting models with and without children, then the waiting and empty-lookup containers; all three sets end empty and the ignore flag off |
| CSGMeshInstances.MeshInstanceManager.QueueLiveModels | Assets/Plugins/RealtimeCSG/Editor/Scripts/Control/Managers/MeshInstanceManager.cs:192-197 | every live model not waiting with children joins the without-children set |
| CSGMeshInstances.MeshInstanceManager.QueueEmptyLookups | Assets/Plugins/RealtimeCSG/Editor/Scripts/Control/Managers/MeshInstanceManager.cs:220-236 | every empty-lookup container joins the pending set |
| CSGMeshInstances.MeshInstanceManager.UpdateHelperSurfaceVisibility | Assets/Plugins/RealtimeCSG/Editor/Scripts/Control/Managers/MeshInstanceManager.cs:1510-1553 | nothing in play mode; otherwise the refreshed models, queued containers and next counter of the refresh pass |
| CSGHierarchy.GroupFromIsOnChain | Assets/Plugins/RealtimeCSG/Editor/Scripts/Data/SceneQuery/SceneQueryUtility.cs:208-223 | a found operation is the nearest HandleAsOne group below the nearest model (no such group on the chain is deeper); none found means no such group there |
| CSGHierarchy.TopMostIsOutermost | Assets/Plugins/RealtimeCSG/Editor/Scripts/Data/SceneQuery/SceneQueryUtility.cs:233-249 | the result is the outermost HandleAsOne, non-PassThrough group below the nearest model, or the node itself |
| CSGHierarchy.GetGroupOperationForNode | Assets/Plugins/RealtimeCSG/Editor/Scripts/Data/SceneQuery/SceneQueryUtility.cs:203-224 | the walk from the parent returns the `GroupFrom` result, and null for a null node |
| CSGHierarchy.GetTopMostGroupForNode | Assets/Plugins/RealtimeCSG/Editor/Scripts/Data/SceneQuery/SceneQueryUtility.cs:228-250 | the walk returns the `TopMostFrom` result, and null for a null node |
| CSGHierarchy.GetGroupGameObjectIfObjectIsPartOfGroup | Assets/Plugins/RealtimeCSG/Editor/Scripts/Data/SceneQuery/SceneQueryUtility.cs:129-140 | null maps to null; an object without a node maps to itself; otherwise to its group operation, falling back to the object |
| CSGHierarchy.DescendantsKeepFound | Assets/Plugins/RealtimeCSG/Editor/Scripts/Data/SceneQuery/SceneQueryUtility.cs:103-121 | once something is found, scanning more descendants keeps it |
| CSGHierarchy.DescendantsFindFirst | Assets/Plugins/RealtimeCSG/Editor/Scripts/Data/SceneQuery/SceneQueryUtility.cs:103-121 | starting from nothing found, the scan finds the first hidden descendant with the name |
| CSGHierarchy.SearchFindsFirstMatch | Assets/Plugins/RealtimeCSG/Editor/Scripts/Data/SceneQuery/SceneQueryUtility.cs:83-123 | the search returns the first hidden object with the name in root-then-descendant order |
| CSGHierarchy.GetUniqueHiddenGameObjectInSceneWithName | Assets/Plugins/RealtimeCSG/Editor/Scripts/Data/SceneQuery/SceneQueryUtility.cs:78-124 | null for an invalid or unloaded scene; otherwise the search's result and the later matches it destroys |
| CSGPoints.BrushSelectionFacts | Assets/Plugins/RealtimeCSG/Editor/Scripts/Data/SceneQuery/SceneQueryUtility.cs:402-421 | a brush contributes exactly its points that are not hidden-and-ignored and inside all six planes, in point order |
| CSGPoints.FrustumSelectionFacts | Assets/Plugins/RealtimeCSG/Editor/Scripts/Data/SceneQuery/SceneQueryUtility.cs:394-423 | the selection holds exactly the selected points of the brushes with a state, brush-major then point order, without repeats |
| CSGPoints.PointInFrustum | Assets/Plugins/RealtimeCSG/Editor/Scripts/Data/SceneQuery/SceneQueryUtility.cs:407-415 | true iff no one of the six planes has the point further than epsilon |
| CSGPoints.GetPointsInFrustum | Assets/Plugins/RealtimeCSG/Editor/Scripts/Data/SceneQuery/SceneQueryUtility.cs:387-424 | the loops build the frustum selection |
| CSGIntersection.QualifyingModels | Assets/Plugins/RealtimeCSG/Editor/Scripts/Data/SceneQuery/SceneQueryUtility.cs:751-764 | exactly the live, active, visible-layer models (renderable or selected when asked), in increasing order |
| CSGIntersection.CollectQualifyingModels | Assets/Plugins/RealtimeCSG/Editor/Scripts/Data/SceneQuery/SceneQueryUtility.cs:748-764 | the loop collects the qualifying models |
| CSGIntersection.ClosestIndex | Assets/Plugins/RealtimeCSG/Editor/Scripts/Data/SceneQuery/SceneQueryUtility.cs:779-794 | the scan's choice is an index of the hits |
| CSGIntersection.ClosestIsLastMinimum | Assets/Plugins/RealtimeCSG/Editor/Scripts/Data/SceneQuery/SceneQueryUtility.cs:779-797 | nothing is chosen iff every hit is skipped; otherwise a non-skipped hit of minimal distance, the last such on ties |
| CSGIntersection.SelectClosestHit | Assets/Plugins/RealtimeCSG/Editor/Scripts/Data/SceneQuery/SceneQueryUtility.cs:779-797 | the loop chooses the hit of `ClosestIndex`, with its brush stamped |
| CSGIntersection.FindWorldIntersection | Assets/Plugins/RealtimeCSG/Editor/Scripts/Data/SceneQuery/SceneQueryUtility.cs:736-800 | false without the ray cast, with no qualifying model or when the ray cast fails; otherwise the closest non-skipped hit, found iff there is one |
| CSGIntersection.IndexOfKey | Assets/Plugins/RealtimeCSG/Editor/Scripts/Data/SceneQuery/SceneQueryUtility.cs:849-850 | the dictionary lookup finds the entry with that key, or none when no entry has it |
| CSGIntersection.OfferKeeps | Assets/Plugins/RealtimeCSG/Editor/Scripts/Data/SceneQuery/SceneQueryUtility.cs:849-851 | a hit no closer than its group's entry leaves the dictionary the best of the hits so far |
| CSGIntersection.OfferReplaces | Assets/Plugins/RealtimeCSG/Editor/Scripts/Data/SceneQuery/SceneQueryUtility.cs:853-856 | a closer hit replaces its group's entry and keeps the dictionary the best |
| CSGIntersection.OfferAdds | Assets/Plugins/RealtimeCSG/Editor/Scripts/Data/SceneQuery/SceneQueryUtility.cs:853-856 | a hit of a new group is added and keeps the dictionary the best |
| CSGIntersection.OfferKeepsBest | Assets/Plugins/RealtimeCSG/Editor/Scripts/Data/SceneQuery/SceneQueryUtility.cs:842-856 | each offered hit keeps the dictionary the best of the hits so far |
| CSGIntersection.CollectIsBest | Assets/Plugins/RealtimeCSG/Editor/Scripts/Data/SceneQuery/SceneQueryUtility.cs:840-857 | one entry per top-most group that got a hit: the closest hit, the earliest on ties, with no other entries |
| CSGIntersection.Values | Assets/Plugins/RealtimeCSG/Editor/Scripts/Data/SceneQuery/SceneQueryUtility.cs:863 | the dictionary's intersections, one per entry, in its order |
| CSGIntersection.InsertKeepsSorted | Assets/Plugins/RealtimeCSG/Editor/Scripts/Data/SceneQuery/SceneQueryUtility.cs:864 | inserting by distance keeps a sorted sequence sorted |
| CSGIntersection.InsertPermutes | Assets/Plugins/RealtimeCSG/Editor/Scripts/Data/SceneQuery/SceneQueryUtility.cs:864 | insertion adds exactly the one element |
| CSGIntersection.SortByDistanceSorts | Assets/Plugins/RealtimeCSG/Editor/Scripts/Data/SceneQuery/SceneQueryUtility.cs:863-864 | the sort gives a permutation of its input ordered by distance |
| CSGIntersection.OfferModelHits | Assets/Plugins/RealtimeCSG/Editor/Scripts/Data/SceneQuery/SceneQueryUtility.cs:840-857 | the inner loop throws iff a considered hit has no brush, and otherwise offers every considered hit of the model in order |
| CSGIntersection.FindMultiWorldIntersection | Assets/Plugins/RealtimeCSG/Editor/Scripts/Data/SceneQuery/SceneQueryUtility.cs:804-868 | false without the ray cast or with no considered hit; throws on a hit without a brush; otherwise the dictionary's intersections sorted by distance |
| CSGIntersection.MultiIntersectionFacts | Assets/Plugins/RealtimeCSG/Editor/Scripts/Data/SceneQuery/SceneQueryUtility.cs:811-867 | a found result is non-empty, sorted by distance, a permutation of the dictionary's values, and holds the closest hit (earliest on ties) of every group |
| CSGDeepClick.KeptLength | Assets/Plugins/RealtimeCSG/Editor/Scripts/Data/SceneQuery/SceneQueryUtility.cs:467-477 | the removal pass keeps exactly the intersections that are not visible and brushless; the length drops by the number removed |
| CSGDeepClick.KeptIndex | Assets/Plugins/RealtimeCSG/Editor/Scripts/Data/SceneQuery/SceneQueryUtility.cs:474-476 | a surviving intersection's new index is its old index less the removals at or before it |
| CSGDeepClick.FirstVisible | Assets/Plugins/RealtimeCSG/Editor/Scripts/Data/SceneQuery/SceneQueryUtility.cs:509-521 | the first intersection on a visible layer, or none |
| CSGDeepClick.CycleFacts | Assets/Plugins/RealtimeCSG/Editor/Scripts/Data/SceneQuery/SceneQueryUtility.cs:480-499 | the index never drops below -1, so the modulo agrees with C#'s; the new index lies in range; fewer than two intersections reset the state |
| CSGDeepClick.CycleSelectsNext | Assets/Plugins/RealtimeCSG/Editor/Scripts/Data/SceneQuery/SceneQueryUtility.cs:480-499 | the selected intersection is the kept one right after the previous selection, wrapping, unless that is index 0 or the same one, which resets |
| CSGDeepClick.FreshSelectsFirstVisible | Assets/Plugins/RealtimeCSG/Editor/Scripts/Data/SceneQuery/SceneQueryUtility.cs:503-525 | a new position queries afresh: the first visible hit is selected with index 0; a failed query resets |
| CSGDeepClick.DeepClick.constructor | Assets/Plugins/RealtimeCSG/Editor/Scripts/Data/SceneQuery/SceneQueryUtility.cs:429-432 | the deep-click state starts reset |
| CSGDeepClick.DeepClick.ResetDeepClick | Assets/Plugins/RealtimeCSG/Editor/Scripts/Data/SceneQuery/SceneQueryUtility.cs:433-439 | no intersections, no scene view, the infinity position and index 0 |
| CSGDeepClick.DeepClick.RemoveBrushless | Assets/Plugins/RealtimeCSG/Editor/Scripts/Data/SceneQuery/SceneQueryUtility.cs:466-477 | the backward removal loop leaves the kept intersections, with the index lowered by the removals at or before it |
| CSGDeepClick.DeepClick.Cycle | Assets/Plugins/RealtimeCSG/Editor/Scripts/Data/SceneQuery/SceneQueryUtility.cs:461-501 | the state and the selection are those of `CycleStep` |
| CSGDeepClick.DeepClick.Fresh | Assets/Plugins/RealtimeCSG/Editor/Scripts/Data/SceneQuery/SceneQueryUtility.cs:503-525 | the state and the selection are those of `FreshStep` |
| CSGDeepClick.DeepClick.FindClickDeepIntersection | Assets/Plugins/RealtimeCSG/Editor/Scripts/Data/SceneQuery/SceneQueryUtility.cs:446-525 | no camera gives nothing; otherwise a cycle when the same position and view are clicked again, then a fresh query when the position changed |

## Left out

- Floating point: all quantities are reals. `0.01f` tolerances, NaN, the infinity sentinel (an `Option`) and float rounding are not modelled.
- Vector and quaternion arithmetic: `TransformPoint`, `InverseTransformPoint`, `Quaternion.Inverse` and the products are abstract frame maps and an abstract group. `SignedAngle`, `Normalize`, magnitudes and `LookRotation` are parameters.
- Projection and plane math (Assets/Scripts/Portal.cs:102-104 and 152-161): the oblique projection matrix and plane conversion are numerics on matrices.
- Render textures and materials in `Portal.Awake`, `Start` and `OnDestroy`: engine resources with no logic.
- `Portal.RenderViewThroughRecursive` and `GameManager.ReleaseAllPortalRenderTextures` are not part of this model. `OnPreRender` takes the render count from a parameter, and `OnPostRender` counts the release calls.
- Physics and navigation: `Physics.Raycast`, `Linecast`, `SyncTransforms`, `CharacterController.Move`, NavMesh `CalculatePath`/`SamplePosition` and `OffMeshLink` setup are parameters, or left out where they only move the body.
- `Random.Range` in AIInput picks an arbitrary alive enemy (`:|`), so the model proves only that the pick is alive.
- Photon networking: the connection and room requests are recorded as requests; `PhotonNetwork.Instantiate` is a recorded spawn.
- Animator, particles, audio, cursor locking, team colours and ragdoll rigidbodies: presentation only. The ragdoll is a boolean.
- Exceptions: a thrown exception is modelled as the call changing nothing further. This covers a missing target, an empty spawn array, a missing pool, a missing NavMeshAgent, an out-of-range corner index and a null dictionary key (`ThrowsOnMissingBrush`).
- Input and UI glue (HumanInput.cs, EscToQuit.cs, HealthBar.cs, both camera controllers, both DebugOnDamage.cs, AudioSet.cs, IsMineLayer.cs) is outside the core.
- MeshInstanceManager: `ValidateModelNow`, `Refresh`, `UpdateContainerFlags`, `UpdateTransforms`, hide-flag handling, `SanitizeGameObject`, SerializedObject syncing, lightmap UVs and `RenderHelperSurfaces` are engine plumbing. Their calls are recorded as outputs (which models and containers are validated or refreshed). Destroying a mesh-instance child is modelled only by its effect on the container's child list: removed when `DestroyImmediate` succeeds, left in place when it throws (a per-child flag); the deactivation and renaming of a child that cannot be destroyed are not modelled.
- CSGMeshInstances.MeshInstanceManager.Update: an exception thrown inside `ValidateModelNow` is not modelled; the `finally` that clears the ignore flag is.
- `LayerUsageFlags` values are not in the modelled files: each basic flag is a set element and the composite values are unions. Only the `UNITY_2019_2_OR_NEWER` branch of `FilterStaticEditorFlags` is modelled.
- `RenderSurfaceType.CastShadows` and `ReceiveShadows` are named `CastShadowsSurface` and `ReceiveShadowsSurface`, to keep them apart from the layer flags of the same name.
- `MathConstants.DistanceEpsilon` is not part of this model; `GetPointsInFrustum` takes it as a parameter. The per-scene-view backfaced state is given directly.
- CSGIntersection.FindWorldIntersection: the `__foundModels` static buffer is a sequence, and `ignoreBrushes` is folded into the ray-cast parameter.
- CSGIntersection.FindMultiWorldIntersection: the `Dictionary` enumerates in insertion order, which holds for a .NET dictionary that is never removed from. `Array.Sort` is modelled by a stable insertion sort. The comparator never returns 0 (`Mathf.Sign(0)` is 1), so the order of equal distances is unspecified in the source; the model fixes one of the allowed orders.
- Intersections are compared by value, not by reference. Deep click's "same intersection" test therefore treats two equal records as the same.
- CSGDeepClick.DeepClick.FindClickDeepIntersection: the rest of `FindClickWorldIntersection` (SceneQueryUtility.cs:527-570) is left out. That part is the model-mesh hide-flag toggling, the `HandleUtility.PickGameObject` fallback and the component filter, all editor picking calls.
- Deep-click quirks kept as the code has them: index 0 counts as "no selection", so wrapping to 0 resets; a fresh pick sets the index to 0 even when the chosen hit is at a later position; a fresh query with no visible hit keeps the stale index.
- CSGHierarchy.GetUniqueHiddenGameObjectInSceneWithName: the scene's roots and their descendants are given as fetched, with an already destroyed object as an absent entry. A root destroyed as a duplicate has its descendants skipped, as in the code.
- `FindSelectionBase`, prefab lookups and the `RayCastIntoBrush*` calls of SceneQueryUtility.cs are outside the modelled operations.

## Findings

| source | as written | input that shows it | evidently intended | confidence | as-written member | corrected member |
|---|---|---|---|---|---|---|
| Assets/AIInput.cs:112-113 | the negative slow-zone snap sets the turn to `aimDeadZone - horizontalAngle`, which ends at +aimDeadZone, on the far side of the target | aimDeadZone 5, aimSlowZone 45, slow speed 30, deltaTime 0.1, angle -6: the code turns by 11 to +5 | `-aimDeadZone - horizontalAngle`, ending at -aimDeadZone like the other snaps, which stop at their zone's edge; here a turn of 1 to -5 | not executed (hidden by the default aimDeadZone = 0) | AI.HorizontalRotationAsWritten, AI.NegativeSlowSnapOvershoots | AI.HorizontalRotation, AI.RotationStopsAtZoneEdge |
