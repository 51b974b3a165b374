/**
 * The slice of Blender's data model the exporter reads. Identity (`==` on
 * Blender IDs, `as_pointer()`) is the datablock's memory address `pointer`.
 */
module Blender {
  import opened Maybe

  /** Any ID datablock: its name, its `type` attribute when it has one, and its address. */
  datatype Datablock = Datablock(name: string, typ: Option<string>, pointer: nat)

  datatype ParticleSystem = ParticleSystem(useRenderEmitter: bool)

  /**
   * A material node tree, reduced to whether a search for pointiness texture
   * nodes finds any (the search itself lives outside this model).
   */
  datatype NodeTree = NodeTree(hasPointinessNode: bool)

  datatype Material = Material(id: Datablock, nodeTree: Option<NodeTree>)

  datatype MaterialSlot = MaterialSlot(material: Option<Material>)

  datatype BlenderObject = BlenderObject(
    id: Datablock,
    hide: bool,                // hidden in the viewport
    hideRender: bool,          // hidden in final renders
    layers: seq<bool>,         // the 20 scene layers the object is on
    isDuplicator: bool,
    particleSystems: seq<ParticleSystem>,
    enableMotionBlur: bool,    // the object's own LuxCore motion blur switch
    hasData: bool,             // `obj.data is not None`
    materialSlots: seq<MaterialSlot>)

  datatype MotionBlur = MotionBlur(enable: bool, objectBlur: bool)

  /** The scene camera's LuxCore settings; `clippingPlane` is the address of the clipping object. */
  datatype Camera = Camera(clippingPlane: Option<nat>, motionBlur: MotionBlur)

  /** A render border: whether it is on and its extent as fractions of the frame. */
  datatype Border = Border(use: bool, minX: real, maxX: real, minY: real, maxY: real)

  datatype UnitSettings = UnitSettings(system: string, scaleLength: real)

  datatype Scene = Scene(
    camera: Option<Camera>,
    layers: seq<bool>,         // the scene's visible layers
    renderLayer: seq<bool>,    // the active render layer's layers
    border: Border,            // scene.render border settings
    units: UnitSettings,
    engine: string)            // scene.render.engine

  /** A viewport render context: the 3D view's perspective and its own render border. */
  datatype ViewContext = ViewContext(viewPerspective: string, spaceBorder: Border)
}
