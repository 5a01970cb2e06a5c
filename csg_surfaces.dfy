/**
 * The surface classification of RealtimeCSG's MeshInstanceManager
 * (Assets/Plugins/RealtimeCSG/Editor/Scripts/Control/Managers/MeshInstanceManager.cs): which
 * kind of generated surface a mesh description yields, which static editor flags its object
 * keeps, whether it is drawn as a helper surface and whether it has a runtime mesh.
 *
 * Flag enums are sets of their basic flags. LayerUsageFlags is not defined in this model's
 * sources; its combined members are taken to be the unions their names spell out
 * (RenderReceiveCastShadows is Renderable, CastShadows and ReceiveShadows).
 */
module CSGSurfaces {
  import opened Wrappers

  /** The basic flags of LayerUsageFlags. */
  datatype LayerUsage = Renderable | CastShadows | ReceiveShadows | Collidable | Culled

  /** The named LayerUsageFlags values the classification compares against. */
  const RenderReceiveCastShadowsFlags: set<LayerUsage> := {Renderable, CastShadows, ReceiveShadows}
  const RenderReceiveShadowsFlags: set<LayerUsage> := {Renderable, ReceiveShadows}
  const RenderCastShadowsFlags: set<LayerUsage> := {Renderable, CastShadows}
  const RenderableFlags: set<LayerUsage> := {Renderable}
  const ReceiveShadowsFlags: set<LayerUsage> := {ReceiveShadows}
  const CastShadowsFlags: set<LayerUsage> := {CastShadows}
  const CastReceiveShadowsFlags: set<LayerUsage> := {CastShadows, ReceiveShadows}
  const CollidableFlags: set<LayerUsage> := {Collidable}
  const CulledFlags: set<LayerUsage> := {LayerUsage.Culled}

  /** LayerParameterIndex: no parameter, the render or the physics parameter, or any other value. */
  datatype LayerParameterIndex = NoParameter | LayerParameter1 | LayerParameter2 | OtherParameter(index: int)

  /** The part of a generated mesh description the classification reads. */
  datatype MeshQuery = MeshQuery(layerQuery: set<LayerUsage>, layerParameterIndex: LayerParameterIndex)

  /** RenderSurfaceType. */
  datatype RenderSurfaceType =
    | Normal | Hidden | Culled | ShadowOnly | Collider | Trigger | CastShadowsSurface | ReceiveShadowsSurface

  /** GetSurfaceType; `isTrigger` is the IsTrigger bit of the model settings. */
  function GetSurfaceType(query: MeshQuery, isTrigger: bool): RenderSurfaceType {
    if query.layerQuery == CulledFlags then RenderSurfaceType.Culled
    else match query.layerParameterIndex
      case LayerParameter1 =>
        var q := query.layerQuery;
        if q == RenderReceiveCastShadowsFlags || q == RenderReceiveShadowsFlags
           || q == RenderCastShadowsFlags || q == RenderableFlags then Normal
        else if q == ReceiveShadowsFlags then Hidden
        else if q == CastReceiveShadowsFlags || q == CastShadowsFlags then ShadowOnly
        else RenderSurfaceType.Culled
      case LayerParameter2 =>
        if isTrigger then Trigger else Collider
      case NoParameter =>
        var q := query.layerQuery;
        if q == {} then Hidden
        else if q == CastShadowsFlags then CastShadowsSurface
        else if q == ReceiveShadowsFlags then ReceiveShadowsSurface
        else if q == CollidableFlags then (if isTrigger then Trigger else Collider)
        else RenderSurfaceType.Culled
      case OtherParameter(_) => Normal
  }

  /**
   * The classification: a Culled query is culled whatever its parameter; under the render
   * parameter the four render variants are normal, receive-only is hidden and cast (with or
   * without receive) is shadow-only; under the physics parameter, and for a collidable query
   * without parameter, the surface is a trigger exactly when the model is one, else a collider;
   * a render-parameter or no-parameter query of any other shape is culled.
   */
  lemma SurfaceTypeClassification(query: MeshQuery, isTrigger: bool)
    ensures query.layerQuery == CulledFlags ==> GetSurfaceType(query, isTrigger) == RenderSurfaceType.Culled
    ensures query.layerParameterIndex == LayerParameter1 ==>
              var q, r := query.layerQuery, GetSurfaceType(query, isTrigger);
              && (r == Normal <==> q in {RenderReceiveCastShadowsFlags, RenderReceiveShadowsFlags, RenderCastShadowsFlags, RenderableFlags})
              && (r == Hidden <==> q == ReceiveShadowsFlags)
              && (r == ShadowOnly <==> q in {CastReceiveShadowsFlags, CastShadowsFlags})
              && (r == RenderSurfaceType.Culled <==> !(q in {RenderReceiveCastShadowsFlags, RenderReceiveShadowsFlags, RenderCastShadowsFlags,
                                                         RenderableFlags, ReceiveShadowsFlags, CastReceiveShadowsFlags, CastShadowsFlags}))
    ensures (query.layerParameterIndex == LayerParameter2 && query.layerQuery != CulledFlags)
            || (query.layerParameterIndex == NoParameter && query.layerQuery == CollidableFlags) ==>
              GetSurfaceType(query, isTrigger) == if isTrigger then Trigger else Collider
    ensures GetSurfaceType(query, isTrigger) in {Trigger, Collider} ==>
              GetSurfaceType(query, isTrigger) == if isTrigger then Trigger else Collider
  {
  }

  /** The members of Unity's StaticEditorFlags. */
  datatype StaticFlag =
    | ContributeGI | OccluderStatic | BatchingStatic | NavigationStatic | OccludeeStatic
    | OffMeshLinkGeneration | ReflectionProbeStatic

  /**
   * FilterStaticEditorFlags (the Unity 2019.2 and later branch): navigation-static exactly for
   * walkable surfaces; every flag cleared for surfaces that are neither normal nor
   * shadow-only; and, for shadow-only, contribute-GI and reflection-probe-static cleared.
   */
  function FilterStaticEditorFlags(oldStaticFlags: set<StaticFlag>, renderSurfaceType: RenderSurfaceType): set<StaticFlag> {
    var walkable := renderSurfaceType !in {Hidden, ShadowOnly, RenderSurfaceType.Culled, Trigger};
    var flags := if walkable then oldStaticFlags + {NavigationStatic} else oldStaticFlags - {NavigationStatic};
    var flags := if renderSurfaceType != Normal && renderSurfaceType != ShadowOnly then {} else flags;
    if renderSurfaceType == ShadowOnly then flags - {ContributeGI, ReflectionProbeStatic} else flags
  }

  /**
   * Only normal and shadow-only surfaces keep flags; a normal surface keeps all and is made
   * navigation-static, a shadow-only one loses navigation, GI and reflection-probe flags.
   */
  lemma StaticFlagsByType(oldStaticFlags: set<StaticFlag>, t: RenderSurfaceType)
    ensures t == Normal ==> FilterStaticEditorFlags(oldStaticFlags, t) == oldStaticFlags + {NavigationStatic}
    ensures t == ShadowOnly ==>
              FilterStaticEditorFlags(oldStaticFlags, t) == oldStaticFlags - {NavigationStatic, ContributeGI, ReflectionProbeStatic}
    ensures t != Normal && t != ShadowOnly ==> FilterStaticEditorFlags(oldStaticFlags, t) == {}
    ensures FilterStaticEditorFlags(oldStaticFlags, t) <= oldStaticFlags + {NavigationStatic}
  {
  }

  /** The helper-surface toggles of CSGSettings. */
  datatype HelperSurfaceSettings = HelperSurfaceSettings(
    showHiddenSurfaces: bool, showCulledSurfaces: bool, showColliderSurfaces: bool,
    showTriggerSurfaces: bool, showCastShadowsSurfaces: bool, showReceiveShadowsSurfaces: bool)

  /** ShouldRenderHelperSurface: each non-normal kind is drawn when its toggle is on. */
  function ShouldRenderHelperSurface(t: RenderSurfaceType, s: HelperSurfaceSettings): bool {
    match t
    case Hidden => s.showHiddenSurfaces
    case Culled => s.showCulledSurfaces
    case Collider => s.showColliderSurfaces
    case Trigger => s.showTriggerSurfaces
    case ShadowOnly => s.showCastShadowsSurfaces
    case CastShadowsSurface => s.showCastShadowsSurfaces
    case ReceiveShadowsSurface => s.showReceiveShadowsSurfaces
    case Normal => false
  }

  /** HasRuntimeMesh; None stands for a missing mesh instance. */
  function HasRuntimeMesh(instanceSurface: Option<RenderSurfaceType>): bool {
    instanceSurface.Some? && instanceSurface.value != RenderSurfaceType.Culled && instanceSurface.value != Hidden
  }

  /**
   * Normal surfaces are never helper surfaces; shadow-only ones share the cast-shadows toggle;
   * a surface whose object keeps static flags always has a runtime mesh, and a missing
   * instance never has one.
   */
  lemma HelperAndRuntimeSurfaces(t: RenderSurfaceType, s: HelperSurfaceSettings, oldStaticFlags: set<StaticFlag>)
    ensures !ShouldRenderHelperSurface(Normal, s)
    ensures ShouldRenderHelperSurface(ShadowOnly, s) == ShouldRenderHelperSurface(CastShadowsSurface, s)
    ensures ShouldRenderHelperSurface(t, s) ==> t != Normal
    ensures FilterStaticEditorFlags(oldStaticFlags, t) != {} ==> HasRuntimeMesh(Some(t))
    ensures HasRuntimeMesh(Some(t)) <==> t !in {RenderSurfaceType.Culled, Hidden}
    ensures !HasRuntimeMesh(None)
  {
  }
}
