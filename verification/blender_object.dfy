/**
 * Converting one Blender object into renderer properties: the visibility
 * gates, the choice between object and mesh transformation, one renderer
 * object per material part of the mesh, and the pointiness shape.
 */
module ObjectExport {
  import opened Maybe
  import opened Strings
  import opened PropertySets
  import opened Blender
  import opened Naming
  import opened Visibility

  /** One renderer object made from a Blender mesh: its name and the material slot it uses. */
  datatype MeshDefinition = MeshDefinition(name: string, materialIndex: nat)

  /** `ExportedObject`: the mesh definitions and the renderer object names they introduce. */
  datatype ExportedObject = ExportedObject(luxcoreNames: seq<string>, meshDefinitions: seq<MeshDefinition>)

  /** A mesh produced by `to_mesh`, reduced to its face count. */
  datatype Mesh = Mesh(tessfaceCount: nat)

  /** A converted material: its renderer name and the properties defining it. */
  datatype MaterialExport = MaterialExport(name: string, props: Props)

  /**
   * The calls this conversion makes into code outside the model: `to_mesh`
   * (given the modifier mode), `DefineBlenderMesh` (given the object name and
   * the mesh transformation), `material.convert` and `material.fallback`.
   */
  datatype Host = Host(
    toMesh: string -> Option<Mesh>,
    defineMesh: (string, Option<seq<real>>) -> seq<MeshDefinition>,
    convertMaterial: Option<Material> -> MaterialExport,
    fallback: MaterialExport)

  /** What `convert` returns: properties, the exported object if any, and the warnings it logged. */
  datatype Converted =
    | Converted(props: Props, exported: Option<ExportedObject>, warnings: seq<string>)
    | ConvertedAsLamp   // handed to `convert_lamp`, which is not part of this model

  const NothingExported := Converted(map[], None, [])

  function Names(defs: seq<MeshDefinition>): (r: seq<string>)
    ensures |r| == |defs|
    ensures forall i :: 0 <= i < |defs| ==> r[i] == defs[i].name
    decreases |defs|
  {
    if |defs| == 0 then [] else [defs[0].name] + Names(defs[1..])
  }

  /** `ExportedObject(mesh_definitions)`: the names are the first components, in order. */
  function NewExportedObject(defs: seq<MeshDefinition>): (e: ExportedObject)
    ensures e.meshDefinitions == defs
    ensures |e.luxcoreNames| == |defs|
    ensures forall i :: 0 <= i < |defs| ==> e.luxcoreNames[i] == defs[i].name
  {
    ExportedObject(Names(defs), defs)
  }

  // ---- Property keys

  function ObjectKey(name: string, field: string): string {
    "scene.objects." + name + "." + field
  }

  function ShapeKey(shape: string, field: string): string {
    "scene.shapes." + shape + "." + field
  }

  predicate IsObjectsKey(k: string) {
    StartsWith(k, "scene.objects.")
  }

  /** The fields `_define_luxcore_object` writes under `scene.objects.<name>.`. */
  predicate IsObjectField(f: string) {
    f == "material" || f == "shape" || f == "transformation"
  }

  lemma ObjectKeyIsObjectsKey(name: string, field: string)
    ensures IsObjectsKey(ObjectKey(name, field))
  {
    assert ObjectKey(name, field)[..14] == "scene.objects.";
  }

  lemma ShapeKeyIsNotObjectsKey(shape: string, field: string)
    ensures !IsObjectsKey(ShapeKey(shape, field))
  {
    assert ShapeKey(shape, field)[6] == 's';
  }

  /** Different object names or fields never share a key. */
  lemma ObjectKeyInjective(n1: string, f1: string, n2: string, f2: string)
    requires IsObjectField(f1) && IsObjectField(f2)
    requires ObjectKey(n1, f1) == ObjectKey(n2, f2)
    ensures n1 == n2 && f1 == f2
  {
    var k1 := ObjectKey(n1, f1);
    var k2 := ObjectKey(n2, f2);
    assert k1[|k1| - 1] == f1[|f1| - 1];
    assert k2[|k2| - 1] == f2[|f2| - 1];
    assert f1 == f2;
    assert |n1| == |n2|;
    assert n1 == k1[14..14 + |n1|];
    assert n2 == k2[14..14 + |n2|];
  }

  // ---- Pointiness

  predicate HasNodeTree(slot: MaterialSlot) {
    slot.material.Some? && slot.material.value.nodeTree.Some?
  }

  function PointinessFlag(slot: MaterialSlot): bool
    requires HasNodeTree(slot)
  {
    slot.material.value.nodeTree.value.hasPointinessNode
  }

  /** The slot loop of `_handle_pointiness`: every slot with a node tree overwrites the flag. */
  function ScanPointiness(slots: seq<MaterialSlot>, acc: bool): bool
    decreases |slots|
  {
    if |slots| == 0 then acc
    else ScanPointiness(slots[1..], if HasNodeTree(slots[0]) then PointinessFlag(slots[0]) else acc)
  }

  function UsePointiness(slots: seq<MaterialSlot>): bool {
    ScanPointiness(slots, false)
  }

  /** The last slot whose material has a node tree. */
  function LastTreeSlot(slots: seq<MaterialSlot>): (r: Option<nat>)
    ensures r.Some? ==> r.value < |slots| && HasNodeTree(slots[r.value])
    ensures r.Some? ==> forall j :: r.value < j < |slots| ==> !HasNodeTree(slots[j])
    ensures r.None? <==> forall j :: 0 <= j < |slots| ==> !HasNodeTree(slots[j])
    decreases |slots|
  {
    if |slots| == 0 then None
    else if HasNodeTree(slots[|slots| - 1]) then Some(|slots| - 1)
    else LastTreeSlot(slots[..|slots| - 1])
  }

  lemma {:induction false} ScanPointinessIsLast(slots: seq<MaterialSlot>, acc: bool)
    ensures ScanPointiness(slots, acc) ==
      match LastTreeSlot(slots)
      case Some(i) => PointinessFlag(slots[i])
      case None => acc
    decreases |slots|
  {
    if |slots| > 0 {
      var tail := slots[1..];
      var acc' := if HasNodeTree(slots[0]) then PointinessFlag(slots[0]) else acc;
      ScanPointinessIsLast(tail, acc');
      var whole := LastTreeSlot(slots);
      match LastTreeSlot(tail)
      case Some(k) =>
        assert tail[k] == slots[k + 1];
        assert HasNodeTree(slots[k + 1]);
        forall j | k + 1 < j < |slots|
          ensures !HasNodeTree(slots[j])
        {
          assert slots[j] == tail[j - 1];
        }
        assert whole == Some(k + 1);
      case None =>
        forall j | 1 <= j < |slots|
          ensures !HasNodeTree(slots[j])
        {
          assert slots[j] == tail[j - 1];
        }
        if HasNodeTree(slots[0]) {
          assert whole == Some(0);
        } else {
          assert whole == None;
        }
    }
  }

  /**
   * `_handle_pointiness` uses pointiness exactly when the last slot whose
   * material has a node tree has a pointiness node: earlier slots are
   * overwritten.
   */
  lemma UsePointinessIff(slots: seq<MaterialSlot>)
    ensures UsePointiness(slots) <==>
      exists i :: 0 <= i < |slots| && HasNodeTree(slots[i]) && PointinessFlag(slots[i])
        && forall j :: i < j < |slots| ==> !HasNodeTree(slots[j])
  {
    ScanPointinessIsLast(slots, false);
    match LastTreeSlot(slots)
    case Some(i) =>
      if exists i' :: 0 <= i' < |slots| && HasNodeTree(slots[i']) && PointinessFlag(slots[i'])
                      && forall j :: i' < j < |slots| ==> !HasNodeTree(slots[j]) {
        var i' :| 0 <= i' < |slots| && HasNodeTree(slots[i']) && PointinessFlag(slots[i'])
                  && forall j :: i' < j < |slots| ==> !HasNodeTree(slots[j]);
        assert i' == i;
      }
    case None =>
  }

  /**
   * A pointiness node in an earlier material does not count once a later
   * slot's material has a node tree without one.
   */
  lemma LaterNodeTreeOverrides(slots: seq<MaterialSlot>, i: nat, j: nat)
    requires i < j < |slots|
    requires HasNodeTree(slots[i]) && PointinessFlag(slots[i])
    requires HasNodeTree(slots[j]) && !PointinessFlag(slots[j])
    requires forall k :: j < k < |slots| ==> !HasNodeTree(slots[k])
    ensures !UsePointiness(slots)
  {
    ScanPointinessIsLast(slots, false);
    var last := LastTreeSlot(slots);
    assert last == Some(j);
  }

  /** The shape a renderer object points at: the mesh, or its pointiness shape. */
  function ShapeName(objectName: string, slots: seq<MaterialSlot>): string {
    if UsePointiness(slots) then "Mesh-" + objectName + "_pointiness" else "Mesh-" + objectName
  }

  datatype ShapeChoice = ShapeChoice(props: Props, shapeName: string)

  /**
   * `_handle_pointiness`: when pointiness is used, a `pointiness` shape named
   * after the mesh shape with `_pointiness` appended, whose source is the
   * mesh shape; the object then uses that shape.
   */
  function HandlePointiness(shapeName: string, slots: seq<MaterialSlot>): (r: ShapeChoice)
    ensures UsePointiness(slots) ==> r.shapeName == shapeName + "_pointiness"
    ensures UsePointiness(slots) ==>
      r.props == map[ShapeKey(r.shapeName, "type") := Str("pointiness"),
                     ShapeKey(r.shapeName, "source") := Str(shapeName)]
    ensures !UsePointiness(slots) ==> r == ShapeChoice(map[], shapeName)
  {
    if UsePointiness(slots) then
      var pointinessShape := shapeName + "_pointiness";
      var prefix := "scene.shapes." + pointinessShape + ".";
      ShapeChoice(map[prefix + "type" := Str("pointiness"), prefix + "source" := Str(shapeName)], pointinessShape)
    else ShapeChoice(map[], shapeName)
  }

  /** Python truthiness of the optional transformation list. */
  predicate Truthy(t: Option<seq<real>>) {
    t.Some? && |t.value| > 0
  }

  /**
   * `_define_luxcore_object`: the object's material and shape, its
   * transformation only when one is given, and the pointiness shape when
   * the materials ask for it; nothing else.
   */
  function DefineLuxcoreObject(name: string, materialName: string, objTransform: Option<seq<real>>,
                               slots: seq<MaterialSlot>): (r: Props)
    ensures ObjectKey(name, "material") in r && r[ObjectKey(name, "material")] == Str(materialName)
    ensures ObjectKey(name, "shape") in r && r[ObjectKey(name, "shape")] == Str(ShapeName(name, slots))
    ensures ObjectKey(name, "transformation") in r <==> Truthy(objTransform)
    ensures Truthy(objTransform) ==> r[ObjectKey(name, "transformation")] == Floats(objTransform.value)
    ensures UsePointiness(slots) ==>
      && ShapeKey(ShapeName(name, slots), "type") in r
      && r[ShapeKey(ShapeName(name, slots), "type")] == Str("pointiness")
      && ShapeKey(ShapeName(name, slots), "source") in r
      && r[ShapeKey(ShapeName(name, slots), "source")] == Str("Mesh-" + name)
  {
    var shape := HandlePointiness("Mesh-" + name, slots);
    ShapeKeyIsNotObjectsKey(shape.shapeName, "type");
    ShapeKeyIsNotObjectsKey(shape.shapeName, "source");
    ObjectKeyIsObjectsKey(name, "material");
    ObjectKeyIsObjectsKey(name, "shape");
    ObjectKeyIsObjectsKey(name, "transformation");
    var entries := map[ObjectKey(name, "material") := Str(materialName), ObjectKey(name, "shape") := Str(shape.shapeName)];
    if Truthy(objTransform) then
      assert |ObjectKey(name, "transformation")| != |ObjectKey(name, "material")|;
      assert |ObjectKey(name, "transformation")| != |ObjectKey(name, "shape")|;
      shape.props + entries + map[ObjectKey(name, "transformation") := Floats(objTransform.value)]
    else
      shape.props + entries
  }

  /**
   * `_define_luxcore_object` writes nothing but the object's own three
   * `scene.objects` keys and, with pointiness, the two keys of the pointiness shape.
   */
  lemma DefineLuxcoreObjectKeys(name: string, materialName: string, objTransform: Option<seq<real>>,
                                slots: seq<MaterialSlot>)
    ensures var r := DefineLuxcoreObject(name, materialName, objTransform, slots);
      && (forall k :: k in r && IsObjectsKey(k) ==>
            k == ObjectKey(name, "material") || k == ObjectKey(name, "shape") || k == ObjectKey(name, "transformation"))
      && (forall k :: k in r && !IsObjectsKey(k) ==>
            UsePointiness(slots) && (k == ShapeKey(ShapeName(name, slots), "type") || k == ShapeKey(ShapeName(name, slots), "source")))
  {
    DefineLuxcoreObjectOwnKeys(name, materialName, objTransform, slots);
    DefineLuxcoreObjectShapeKeys(name, materialName, objTransform, slots);
  }

  lemma DefineLuxcoreObjectOwnKeys(name: string, materialName: string, objTransform: Option<seq<real>>,
                                   slots: seq<MaterialSlot>)
    ensures forall k :: k in DefineLuxcoreObject(name, materialName, objTransform, slots) && IsObjectsKey(k) ==>
      k == ObjectKey(name, "material") || k == ObjectKey(name, "shape") || k == ObjectKey(name, "transformation")
  {
    var shape := HandlePointiness("Mesh-" + name, slots);
    ShapeKeyIsNotObjectsKey(shape.shapeName, "type");
    ShapeKeyIsNotObjectsKey(shape.shapeName, "source");
  }

  lemma DefineLuxcoreObjectShapeKeys(name: string, materialName: string, objTransform: Option<seq<real>>,
                                     slots: seq<MaterialSlot>)
    ensures forall k :: k in DefineLuxcoreObject(name, materialName, objTransform, slots) && !IsObjectsKey(k) ==>
      UsePointiness(slots) && (k == ShapeKey(ShapeName(name, slots), "type") || k == ShapeKey(ShapeName(name, slots), "source"))
  {
    ObjectKeyIsObjectsKey(name, "material");
    ObjectKeyIsObjectsKey(name, "shape");
    ObjectKeyIsObjectsKey(name, "transformation");
  }

  /** Exactly one of the object and mesh transformations is set; the object one when instancing. */
  function ChooseTransforms(instanced: bool, transformation: seq<real>): (r: (Option<seq<real>>, Option<seq<real>>))
    ensures r.0.Some? != r.1.Some?
    ensures r.0.Some? <==> instanced
    ensures r.0.Some? ==> r.0.value == transformation
    ensures r.1.Some? ==> r.1.value == transformation
  {
    if instanced then (Some(transformation), None) else (None, Some(transformation))
  }

  // ---- Material parts

  /** The material of a part: its slot's material when the index names a slot, the fallback otherwise. */
  function PartMaterial(def: MeshDefinition, slots: seq<MaterialSlot>, host: Host): (r: MaterialExport)
    ensures HasSlotMaterial(def, slots) ==> r == host.convertMaterial(Some(slots[def.materialIndex].material.value))
    ensures def.materialIndex >= |slots| ==> r == host.fallback
  {
    if def.materialIndex < |slots| then host.convertMaterial(slots[def.materialIndex].material) else host.fallback
  }

  function NoSlotMaterialWarning(objName: string, index: nat): string {
    "Object \"" + objName + "\": No material attached to slot " + NatToString(index)
  }

  function NoMaterialWarning(objName: string): string {
    "Object \"" + objName + "\": No material defined"
  }

  /** The part finds a material in its slot, so nothing is logged for it. */
  predicate HasSlotMaterial(def: MeshDefinition, slots: seq<MaterialSlot>) {
    def.materialIndex < |slots| && slots[def.materialIndex].material.Some?
  }

  function PartWarnings(def: MeshDefinition, objName: string, slots: seq<MaterialSlot>): (w: seq<string>)
    ensures |w| <= 1
    ensures |w| == 0 <==> HasSlotMaterial(def, slots)
    ensures def.materialIndex < |slots| && slots[def.materialIndex].material.None? ==>
      w == [NoSlotMaterialWarning(objName, def.materialIndex)]
    ensures def.materialIndex >= |slots| ==> w == [NoMaterialWarning(objName)]
  {
    if def.materialIndex < |slots| then
      if slots[def.materialIndex].material.None? then [NoSlotMaterialWarning(objName, def.materialIndex)] else []
    else [NoMaterialWarning(objName)]
  }

  /**
   * The warning a part logs tells which material it gets: no warning means
   * the conversion of its slot's material, the empty-slot warning means the
   * conversion of no material, and "No material defined" means the fallback.
   */
  lemma PartMaterialMatchesWarning(def: MeshDefinition, objName: string, slots: seq<MaterialSlot>, host: Host)
    ensures var w := PartWarnings(def, objName, slots);
      var m := PartMaterial(def, slots, host);
      && (w == [] ==> def.materialIndex < |slots| && slots[def.materialIndex].material.Some?
                      && m == host.convertMaterial(slots[def.materialIndex].material))
      && (w == [NoSlotMaterialWarning(objName, def.materialIndex)] ==> m == host.convertMaterial(None))
      && (w == [NoMaterialWarning(objName)] ==> m == host.fallback)
  {
    var prefix := "Object \"" + objName + "\": No material ";
    assert NoSlotMaterialWarning(objName, def.materialIndex)[|prefix|] == 'a';
    assert NoMaterialWarning(objName)[|prefix|] == 'd';
  }

  datatype PartsOut = PartsOut(props: Props, warnings: seq<string>)

  /** The warnings of the parts, part by part in order. */
  function AllPartWarnings(defs: seq<MeshDefinition>, objName: string, slots: seq<MaterialSlot>): seq<string>
    decreases |defs|
  {
    if |defs| == 0 then [] else PartWarnings(defs[0], objName, slots) + AllPartWarnings(defs[1..], objName, slots)
  }

  /** Appending a part appends its warnings. */
  lemma {:induction false} AllPartWarningsSnoc(defs: seq<MeshDefinition>, objName: string, slots: seq<MaterialSlot>)
    requires |defs| > 0
    ensures AllPartWarnings(defs, objName, slots)
            == AllPartWarnings(defs[..|defs| - 1], objName, slots) + PartWarnings(defs[|defs| - 1], objName, slots)
    decreases |defs|
  {
    if |defs| > 1 {
      var tail := defs[1..];
      assert tail[..|tail| - 1] == defs[..|defs| - 1][1..];
      assert tail[|tail| - 1] == defs[|defs| - 1];
      AllPartWarningsSnoc(tail, objName, slots);
      ConcatAssoc(PartWarnings(defs[0], objName, slots), AllPartWarnings(tail[..|tail| - 1], objName, slots),
                  PartWarnings(defs[|defs| - 1], objName, slots));
    } else {
      assert defs[..|defs| - 1] == [];
    }
  }

  /** The props one mesh part contributes: its material, then its object definition. */
  function PartProps(def: MeshDefinition, obj: BlenderObject, objTransform: Option<seq<real>>, host: Host): Props {
    var mat := PartMaterial(def, obj.materialSlots, host);
    mat.props + DefineLuxcoreObject(def.name, mat.name, objTransform, obj.materialSlots)
  }

  /** The loop over `mesh_definitions`, each part's props set after those of the parts before it. */
  function ExportParts(defs: seq<MeshDefinition>, obj: BlenderObject, objTransform: Option<seq<real>>,
                       host: Host): (r: PartsOut)
    ensures r.warnings == AllPartWarnings(defs, obj.id.name, obj.materialSlots)
    ensures |r.warnings| <= |defs|
    ensures |r.warnings| == 0 <==> forall i :: 0 <= i < |defs| ==> HasSlotMaterial(defs[i], obj.materialSlots)
    decreases |defs|
  {
    if |defs| == 0 then PartsOut(map[], [])
    else
      var init := defs[..|defs| - 1];
      var last := defs[|defs| - 1];
      var before := ExportParts(init, obj, objTransform, host);
      SlotMaterialSplit(defs, init, obj.materialSlots);
      AllPartWarningsSnoc(defs, obj.id.name, obj.materialSlots);
      PartsOut(before.props + PartProps(last, obj, objTransform, host),
               before.warnings + PartWarnings(last, obj.id.name, obj.materialSlots))
  }

  lemma SlotMaterialSplit(defs: seq<MeshDefinition>, init: seq<MeshDefinition>, slots: seq<MaterialSlot>)
    requires |defs| > 0 && init == defs[..|defs| - 1]
    ensures (forall i :: 0 <= i < |defs| ==> HasSlotMaterial(defs[i], slots)) <==>
      (forall i :: 0 <= i < |init| ==> HasSlotMaterial(init[i], slots)) && HasSlotMaterial(defs[|defs| - 1], slots)
  {
    assert forall i :: 0 <= i < |init| ==> init[i] == defs[i];
  }

  /** The last part's props are set over those of the parts before it. */
  lemma ExportPartsStep(defs: seq<MeshDefinition>, obj: BlenderObject, objTransform: Option<seq<real>>, host: Host)
    requires |defs| > 0
    ensures ExportParts(defs, obj, objTransform, host).props
            == ExportParts(defs[..|defs| - 1], obj, objTransform, host).props + PartProps(defs[|defs| - 1], obj, objTransform, host)
  {
  }

  /** Every key of every part's converted material definitions is in the exported props. */
  lemma {:induction false} ExportPartsMaterials(defs: seq<MeshDefinition>, obj: BlenderObject,
                                                objTransform: Option<seq<real>>, host: Host)
    ensures forall i, k :: 0 <= i < |defs| && k in PartMaterial(defs[i], obj.materialSlots, host).props ==>
      k in ExportParts(defs, obj, objTransform, host).props
    decreases |defs|
  {
    if |defs| > 0 {
      var init := defs[..|defs| - 1];
      ExportPartsStep(defs, obj, objTransform, host);
      ExportPartsMaterials(init, obj, objTransform, host);
      forall i, k | 0 <= i < |defs| && k in PartMaterial(defs[i], obj.materialSlots, host).props
        ensures k in ExportParts(defs, obj, objTransform, host).props
      {
        if i < |defs| - 1 {
          assert init[i] == defs[i];
        }
      }
    }
  }

  /** With pointiness, a part's props define the pointiness shape its object points at. */
  lemma PartHasShapeKeys(def: MeshDefinition, obj: BlenderObject, objTransform: Option<seq<real>>, host: Host)
    requires UsePointiness(obj.materialSlots)
    ensures ShapeKey(ShapeName(def.name, obj.materialSlots), "type") in PartProps(def, obj, objTransform, host)
    ensures ShapeKey(ShapeName(def.name, obj.materialSlots), "source") in PartProps(def, obj, objTransform, host)
  {
    var mat := PartMaterial(def, obj.materialSlots, host);
    var d := DefineLuxcoreObject(def.name, mat.name, objTransform, obj.materialSlots);
    assert ShapeKey(ShapeName(def.name, obj.materialSlots), "type") in d;
  }

  /** With pointiness, every part's pointiness shape is defined in the exported props. */
  lemma {:induction false} ExportPartsShapeKeys(defs: seq<MeshDefinition>, obj: BlenderObject,
                                                objTransform: Option<seq<real>>, host: Host)
    requires UsePointiness(obj.materialSlots)
    ensures forall i :: 0 <= i < |defs| ==>
      && ShapeKey(ShapeName(defs[i].name, obj.materialSlots), "type") in ExportParts(defs, obj, objTransform, host).props
      && ShapeKey(ShapeName(defs[i].name, obj.materialSlots), "source") in ExportParts(defs, obj, objTransform, host).props
    decreases |defs|
  {
    if |defs| > 0 {
      var init := defs[..|defs| - 1];
      ExportPartsStep(defs, obj, objTransform, host);
      ExportPartsShapeKeys(init, obj, objTransform, host);
      PartHasShapeKeys(defs[|defs| - 1], obj, objTransform, host);
      forall i | 0 <= i < |defs| - 1
        ensures ShapeKey(ShapeName(defs[i].name, obj.materialSlots), "type") in ExportParts(defs, obj, objTransform, host).props
        ensures ShapeKey(ShapeName(defs[i].name, obj.materialSlots), "source") in ExportParts(defs, obj, objTransform, host).props
      {
        assert init[i] == defs[i];
      }
    }
  }

  /** Material conversion never writes `scene.objects.*` keys. */
  ghost predicate MaterialsStayOutOfObjects(host: Host) {
    && (forall m, k :: k in host.convertMaterial(m).props ==> !IsObjectsKey(k))
    && (forall k :: k in host.fallback.props ==> !IsObjectsKey(k))
  }

  lemma MaterialKeyNotObjectsKey(def: MeshDefinition, slots: seq<MaterialSlot>, host: Host, k: string)
    requires MaterialsStayOutOfObjects(host) && IsObjectsKey(k)
    ensures k !in PartMaterial(def, slots, host).props
  {
    if def.materialIndex < |slots| {
      var m := slots[def.materialIndex].material;
      assert k !in host.convertMaterial(m).props;
    }
  }

  predicate DistinctNames(defs: seq<MeshDefinition>) {
    forall i, j :: 0 <= i < j < |defs| ==> defs[i].name != defs[j].name
  }

  /** The object entries one mesh part gets, as `_define_luxcore_object` writes them. */
  ghost predicate HasObjectEntries(p: Props, def: MeshDefinition, obj: BlenderObject,
                                   objTransform: Option<seq<real>>, host: Host) {
    var n := def.name;
    && ObjectKey(n, "material") in p
    && p[ObjectKey(n, "material")] == Str(PartMaterial(def, obj.materialSlots, host).name)
    && ObjectKey(n, "shape") in p
    && p[ObjectKey(n, "shape")] == Str(ShapeName(n, obj.materialSlots))
    && (ObjectKey(n, "transformation") in p <==> Truthy(objTransform))
    && (Truthy(objTransform) ==> p[ObjectKey(n, "transformation")] == Floats(objTransform.value))
  }

  lemma PartKeepsOtherEntries(p: Props, def: MeshDefinition, other: MeshDefinition, obj: BlenderObject,
                              objTransform: Option<seq<real>>, host: Host)
    requires MaterialsStayOutOfObjects(host)
    requires def.name != other.name
    requires HasObjectEntries(p, def, obj, objTransform, host)
    ensures HasObjectEntries(p + PartProps(other, obj, objTransform, host), def, obj, objTransform, host)
  {
    var q := PartProps(other, obj, objTransform, host);
    PartLeavesOtherKey(def.name, "material", other, obj, objTransform, host);
    PartLeavesOtherKey(def.name, "shape", other, obj, objTransform, host);
    PartLeavesOtherKey(def.name, "transformation", other, obj, objTransform, host);
    assert (p + q)[ObjectKey(def.name, "material")] == p[ObjectKey(def.name, "material")];
    assert (p + q)[ObjectKey(def.name, "shape")] == p[ObjectKey(def.name, "shape")];
  }

  lemma PartHasOwnEntries(p: Props, def: MeshDefinition, obj: BlenderObject,
                           objTransform: Option<seq<real>>, host: Host)
    requires MaterialsStayOutOfObjects(host)
    requires ObjectKey(def.name, "transformation") !in p
    ensures HasObjectEntries(p + PartProps(def, obj, objTransform, host), def, obj, objTransform, host)
  {
    var mat := PartMaterial(def, obj.materialSlots, host);
    var d := DefineLuxcoreObject(def.name, mat.name, objTransform, obj.materialSlots);
    assert PartProps(def, obj, objTransform, host) == mat.props + d;
    ObjectKeyIsObjectsKey(def.name, "transformation");
    MaterialKeyNotObjectsKey(def, obj.materialSlots, host, ObjectKey(def.name, "transformation"));
  }

  /** `k` is one of the keys `_define_luxcore_object` writes for `def`. */
  predicate BelongsTo(k: string, def: MeshDefinition) {
    k == ObjectKey(def.name, "material") || k == ObjectKey(def.name, "shape")
    || k == ObjectKey(def.name, "transformation")
  }

  lemma NameKeyNotBelongs(name: string, f: string, def: MeshDefinition)
    requires name != def.name && IsObjectField(f)
    ensures !BelongsTo(ObjectKey(name, f), def)
  {
    var key := ObjectKey(name, f);
    if key == ObjectKey(def.name, "material") {
      ObjectKeyInjective(name, f, def.name, "material");
    } else if key == ObjectKey(def.name, "shape") {
      ObjectKeyInjective(name, f, def.name, "shape");
    } else if key == ObjectKey(def.name, "transformation") {
      ObjectKeyInjective(name, f, def.name, "transformation");
    }
  }

  /** Every `scene.objects.*` key the parts produce belongs to one of the parts: nothing else is defined. */
  lemma {:induction false} ExportPartsObjectKeys(defs: seq<MeshDefinition>, obj: BlenderObject,
                                                 objTransform: Option<seq<real>>, host: Host)
    requires MaterialsStayOutOfObjects(host)
    ensures forall k :: k in ExportParts(defs, obj, objTransform, host).props && IsObjectsKey(k) ==>
      exists i :: 0 <= i < |defs| && BelongsTo(k, defs[i])
  {
    forall k | k in ExportParts(defs, obj, objTransform, host).props && IsObjectsKey(k)
      ensures exists i :: 0 <= i < |defs| && BelongsTo(k, defs[i])
    {
      ExportPartsObjectKey(defs, obj, objTransform, host, k);
    }
  }

  /** One `scene.objects.` key of the exported parts, traced back to the part it belongs to. */
  lemma {:induction false} ExportPartsObjectKey(defs: seq<MeshDefinition>, obj: BlenderObject,
                                                objTransform: Option<seq<real>>, host: Host, k: string)
    requires MaterialsStayOutOfObjects(host)
    requires k in ExportParts(defs, obj, objTransform, host).props && IsObjectsKey(k)
    ensures exists i :: 0 <= i < |defs| && BelongsTo(k, defs[i])
    decreases |defs|
  {
    var init := defs[..|defs| - 1];
    var last := defs[|defs| - 1];
    var mat := PartMaterial(last, obj.materialSlots, host);
    var d := DefineLuxcoreObject(last.name, mat.name, objTransform, obj.materialSlots);
    ExportPartsStep(defs, obj, objTransform, host);
    if k in d {
      DefineLuxcoreObjectKeys(last.name, mat.name, objTransform, obj.materialSlots);
      assert BelongsTo(k, defs[|defs| - 1]);
    } else {
      MaterialKeyNotObjectsKey(last, obj.materialSlots, host, k);
      ExportPartsObjectKey(init, obj, objTransform, host, k);
      var i :| 0 <= i < |init| && BelongsTo(k, init[i]);
      assert init[i] == defs[i];
    }
  }

  lemma PartLeavesOtherKey(name: string, f: string, other: MeshDefinition, obj: BlenderObject,
                           objTransform: Option<seq<real>>, host: Host)
    requires MaterialsStayOutOfObjects(host)
    requires name != other.name && IsObjectField(f)
    ensures ObjectKey(name, f) !in PartProps(other, obj, objTransform, host)
  {
    var mat := PartMaterial(other, obj.materialSlots, host);
    var d := DefineLuxcoreObject(other.name, mat.name, objTransform, obj.materialSlots);
    DefineLuxcoreObjectKeys(other.name, mat.name, objTransform, obj.materialSlots);
    var key := ObjectKey(name, f);
    ObjectKeyIsObjectsKey(name, f);
    MaterialKeyNotObjectsKey(other, obj.materialSlots, host, key);
    if key in d {
      if key == ObjectKey(other.name, "material") {
        ObjectKeyInjective(name, f, other.name, "material");
      } else if key == ObjectKey(other.name, "shape") {
        ObjectKeyInjective(name, f, other.name, "shape");
      } else {
        ObjectKeyInjective(name, f, other.name, "transformation");
      }
    }
  }

  /**
   * Every part of the mesh gets its renderer object: the material chosen for
   * its slot (or the fallback), its shape, and a transformation exactly when
   * an object transformation is in use.
   */
  lemma {:induction false} ExportPartsEntries(defs: seq<MeshDefinition>, obj: BlenderObject,
                                              objTransform: Option<seq<real>>, host: Host)
    requires MaterialsStayOutOfObjects(host)
    requires DistinctNames(defs)
    ensures forall i :: 0 <= i < |defs| ==>
      HasObjectEntries(ExportParts(defs, obj, objTransform, host).props, defs[i], obj, objTransform, host)
    decreases |defs|
  {
    if |defs| > 0 {
      var init := defs[..|defs| - 1];
      var last := defs[|defs| - 1];
      var before := ExportParts(init, obj, objTransform, host).props;
      var p := ExportParts(defs, obj, objTransform, host).props;
      ExportPartsStep(defs, obj, objTransform, host);
      assert DistinctNames(init) by {
        assert forall i :: 0 <= i < |init| ==> init[i] == defs[i];
      }
      ExportPartsEntries(init, obj, objTransform, host);
      LastPartEntries(defs, obj, objTransform, host);
      forall i | 0 <= i < |defs| - 1
        ensures HasObjectEntries(p, defs[i], obj, objTransform, host)
      {
        assert defs[i] == init[i];
        PartKeepsOtherEntries(before, defs[i], last, obj, objTransform, host);
      }
    }
  }

  lemma LastPartEntries(defs: seq<MeshDefinition>, obj: BlenderObject,
                        objTransform: Option<seq<real>>, host: Host)
    requires MaterialsStayOutOfObjects(host)
    requires DistinctNames(defs) && |defs| > 0
    ensures HasObjectEntries(ExportParts(defs, obj, objTransform, host).props, defs[|defs| - 1], obj, objTransform, host)
  {
    var init := defs[..|defs| - 1];
    var last := defs[|defs| - 1];
    var before := ExportParts(init, obj, objTransform, host).props;
    ExportPartsStep(defs, obj, objTransform, host);
    ExportPartsObjectKeys(init, obj, objTransform, host);
    forall j | 0 <= j < |init|
      ensures !BelongsTo(ObjectKey(last.name, "transformation"), init[j])
    {
      assert init[j] == defs[j];
      NameKeyNotBelongs(last.name, "transformation", init[j]);
    }
    ObjectKeyIsObjectsKey(last.name, "transformation");
    PartHasOwnEntries(before, last, obj, objTransform, host);
  }

  // ---- convert

  /** The gates `convert` passes before it looks at the object's data. */
  predicate PassesVisibility(obj: BlenderObject, scene: Scene, inViewport: bool, dupliSuffix: string) {
    && IsObjVisible(obj, scene, inViewport, |dupliSuffix| > 0)
    && !(obj.isDuplicator && !IsDuplicatorVisible(obj))
  }

  /** The renderer object name before `DefineBlenderMesh` splits it into parts. */
  function ConvertName(obj: BlenderObject, inViewport: bool, dupliSuffix: string): string {
    GetLuxcoreName(obj.id, inViewport) + dupliSuffix
  }

  /** The modifier mode `to_mesh` is asked for. */
  function ModifierMode(inViewport: bool): string {
    if inViewport then "PREVIEW" else "RENDER"
  }

  predicate HasFaces(mesh: Option<Mesh>) {
    mesh.Some? && mesh.value.tessfaceCount > 0
  }

  /** Whether `convert` moves the object rather than baking the transformation into the mesh. */
  predicate Instanced(obj: BlenderObject, scene: Scene, inViewport: bool, dupliSuffix: string) {
    UseInstancing(obj, scene, inViewport) || |dupliSuffix| > 0
  }

  /**
   * `convert`. `transformation` is the world-scaled flattening of the object's
   * world matrix; `context` is present in viewport renders.
   */
  function Convert(obj: BlenderObject, scene: Scene, context: Option<ViewContext>, host: Host,
                   transformation: seq<real>, exported: Option<ExportedObject>, updateMesh: bool,
                   dupliSuffix: string): (r: Converted)
    ensures !IsObjVisible(obj, scene, context.Some?, |dupliSuffix| > 0) ==> r == NothingExported
    ensures obj.isDuplicator && (forall i :: 0 <= i < |obj.particleSystems| ==> !obj.particleSystems[i].useRenderEmitter)
            ==> r == NothingExported
    ensures r.ConvertedAsLamp? <==> PassesVisibility(obj, scene, context.Some?, dupliSuffix) && obj.id.typ == Some("LAMP")
    ensures obj.id.typ != Some("LAMP") && !obj.hasData ==> r == NothingExported
    ensures r.Converted? && r.exported.None? ==> r.props == map[]
    ensures PassesVisibility(obj, scene, context.Some?, dupliSuffix) && obj.id.typ != Some("LAMP") && obj.hasData
            && updateMesh && !HasFaces(host.toMesh(ModifierMode(context.Some?)))
            ==> r == NothingExported
    ensures PassesVisibility(obj, scene, context.Some?, dupliSuffix) && obj.id.typ != Some("LAMP") && obj.hasData
            && !updateMesh && exported.None?
            ==> r == Converted(map[], None, ["Object \"" + obj.id.name + "\": "])
    ensures r.Converted? && r.exported.Some? ==>
      var e := r.exported.value;
      |e.luxcoreNames| == |e.meshDefinitions| && forall i :: 0 <= i < |e.meshDefinitions| ==> e.luxcoreNames[i] == e.meshDefinitions[i].name
    ensures r.Converted? && r.exported.Some? && !updateMesh && exported.Some? ==> r.exported == Some(NewExportedObject(exported.value.meshDefinitions))
  {
    var inViewport := context.Some?;
    if !IsObjVisible(obj, scene, inViewport, |dupliSuffix| > 0) then NothingExported
    else if obj.isDuplicator && !IsDuplicatorVisible(obj) then NothingExported
    else if obj.id.typ == Some("LAMP") then ConvertedAsLamp
    else
      var luxcoreName := ConvertName(obj, inViewport, dupliSuffix);
      if !obj.hasData then NothingExported
      else
        var (objTransform, meshTransform) := ChooseTransforms(Instanced(obj, scene, inViewport, dupliSuffix), transformation);
        if updateMesh then
          var mesh := host.toMesh(ModifierMode(inViewport));
          if !HasFaces(mesh) then NothingExported
          else
            var defs := host.defineMesh(luxcoreName, meshTransform);
            var parts := ExportParts(defs, obj, objTransform, host);
            Converted(parts.props, Some(NewExportedObject(defs)), parts.warnings)
        else if exported.None? then
          // the failed `assert exported_object is not None` is caught and logged with an empty message
          Converted(map[], None, ["Object \"" + obj.id.name + "\": "])
        else
          var defs := exported.value.meshDefinitions;
          var parts := ExportParts(defs, obj, objTransform, host);
          Converted(parts.props, Some(NewExportedObject(defs)), parts.warnings)
  }

  /** The object transformation `convert` hands to each part. */
  function ObjTransform(obj: BlenderObject, scene: Scene, inViewport: bool, dupliSuffix: string,
                        transformation: seq<real>): Option<seq<real>> {
    if Instanced(obj, scene, inViewport, dupliSuffix) then Some(transformation) else None
  }

  /**
   * An object that passes every gate is exported: a fresh conversion when
   * its mesh has faces, and a reuse of the cached mesh definitions when the
   * mesh is not updated and a cached export exists.
   */
  lemma ConvertSucceeds(obj: BlenderObject, scene: Scene, context: Option<ViewContext>, host: Host,
                        transformation: seq<real>, exported: Option<ExportedObject>, updateMesh: bool,
                        dupliSuffix: string)
    requires PassesVisibility(obj, scene, context.Some?, dupliSuffix) && obj.id.typ != Some("LAMP") && obj.hasData
    requires if updateMesh then HasFaces(host.toMesh(ModifierMode(context.Some?))) else exported.Some?
    ensures var r := Convert(obj, scene, context, host, transformation, exported, updateMesh, dupliSuffix);
      && r.Converted? && r.exported.Some?
      && (updateMesh ==> r.exported.value.meshDefinitions
                         == host.defineMesh(ConvertName(obj, context.Some?, dupliSuffix),
                                            if Instanced(obj, scene, context.Some?, dupliSuffix) then None else Some(transformation)))
      && (!updateMesh ==> r.exported == Some(NewExportedObject(exported.value.meshDefinitions)))
  {
    var inViewport := context.Some?;
    var (ot, mt) := ChooseTransforms(Instanced(obj, scene, inViewport, dupliSuffix), transformation);
    if updateMesh {
      var defs := host.defineMesh(ConvertName(obj, inViewport, dupliSuffix), mt);
      assert Convert(obj, scene, context, host, transformation, exported, updateMesh, dupliSuffix).exported
             == Some(NewExportedObject(defs));
    }
  }

  /** A successful conversion exports its parts with `ExportParts`. */
  lemma ConvertExportsParts(obj: BlenderObject, scene: Scene, context: Option<ViewContext>, host: Host,
                            transformation: seq<real>, exported: Option<ExportedObject>, updateMesh: bool,
                            dupliSuffix: string)
    requires var r := Convert(obj, scene, context, host, transformation, exported, updateMesh, dupliSuffix);
      r.Converted? && r.exported.Some?
    ensures var r := Convert(obj, scene, context, host, transformation, exported, updateMesh, dupliSuffix);
      var parts := ExportParts(r.exported.value.meshDefinitions, obj,
                               ObjTransform(obj, scene, context.Some?, dupliSuffix, transformation), host);
      r.props == parts.props && r.warnings == parts.warnings
  {
    var inViewport := context.Some?;
    var r := Convert(obj, scene, context, host, transformation, exported, updateMesh, dupliSuffix);
    var objTransform := ObjTransform(obj, scene, inViewport, dupliSuffix, transformation);
    var (ot, mt) := ChooseTransforms(Instanced(obj, scene, inViewport, dupliSuffix), transformation);
    assert ot == objTransform;
    if updateMesh {
      var defs := host.defineMesh(ConvertName(obj, inViewport, dupliSuffix), mt);
      assert r == Converted(ExportParts(defs, obj, ot, host).props, Some(NewExportedObject(defs)),
                            ExportParts(defs, obj, ot, host).warnings);
    } else {
      var defs := exported.value.meshDefinitions;
      assert r == Converted(ExportParts(defs, obj, ot, host).props, Some(NewExportedObject(defs)),
                            ExportParts(defs, obj, ot, host).warnings);
    }
  }

  /**
   * A conversion that produced an object passed every gate and defined every
   * part: the part's slot material or the fallback, its shape, and a
   * transformation exactly when the object is instanced (viewport, object
   * motion blur, or a dupli); the mesh parts come from `DefineBlenderMesh`
   * (given the mesh transformation only when not instanced) or from the cache.
   */
  lemma ConvertDefinesParts(obj: BlenderObject, scene: Scene, context: Option<ViewContext>, host: Host,
                            transformation: seq<real>, exported: Option<ExportedObject>, updateMesh: bool,
                            dupliSuffix: string)
    requires MaterialsStayOutOfObjects(host)
    requires var r := Convert(obj, scene, context, host, transformation, exported, updateMesh, dupliSuffix);
      r.Converted? && r.exported.Some? && DistinctNames(r.exported.value.meshDefinitions)
    ensures PassesVisibility(obj, scene, context.Some?, dupliSuffix) && obj.id.typ != Some("LAMP") && obj.hasData
    ensures var r := Convert(obj, scene, context, host, transformation, exported, updateMesh, dupliSuffix);
      var defs := r.exported.value.meshDefinitions;
      && (updateMesh ==> HasFaces(host.toMesh(ModifierMode(context.Some?)))
                         && defs == host.defineMesh(ConvertName(obj, context.Some?, dupliSuffix),
                                                    if Instanced(obj, scene, context.Some?, dupliSuffix) then None else Some(transformation)))
      && (!updateMesh ==> exported.Some? && defs == exported.value.meshDefinitions)
      && (forall i :: 0 <= i < |defs| ==>
            HasObjectEntries(r.props, defs[i], obj, ObjTransform(obj, scene, context.Some?, dupliSuffix, transformation), host))
      && (|transformation| > 0 ==> forall i :: 0 <= i < |defs| ==>
            (ObjectKey(defs[i].name, "transformation") in r.props <==> Instanced(obj, scene, context.Some?, dupliSuffix)))
      && (|r.warnings| == 0 <==> forall i :: 0 <= i < |defs| ==> HasSlotMaterial(defs[i], obj.materialSlots))
      && r.warnings == AllPartWarnings(defs, obj.id.name, obj.materialSlots)
      && (forall i, k :: 0 <= i < |defs| && k in PartMaterial(defs[i], obj.materialSlots, host).props ==> k in r.props)
      && (UsePointiness(obj.materialSlots) ==> forall i :: 0 <= i < |defs| ==>
            && ShapeKey(ShapeName(defs[i].name, obj.materialSlots), "type") in r.props
            && ShapeKey(ShapeName(defs[i].name, obj.materialSlots), "source") in r.props)
  {
    var r := Convert(obj, scene, context, host, transformation, exported, updateMesh, dupliSuffix);
    var defs := r.exported.value.meshDefinitions;
    var objTransform := ObjTransform(obj, scene, context.Some?, dupliSuffix, transformation);
    ConvertExportsParts(obj, scene, context, host, transformation, exported, updateMesh, dupliSuffix);
    ExportPartsEntries(defs, obj, objTransform, host);
    ExportPartsMaterials(defs, obj, objTransform, host);
    if UsePointiness(obj.materialSlots) {
      ExportPartsShapeKeys(defs, obj, objTransform, host);
    }
  }

  /**
   * Instancing end to end: in the viewport, with object motion blur or for a
   * duplicate, a freshly converted mesh is defined without a transformation
   * and every part carries the object's transformation instead.
   */
  lemma InstancedPartsCarryTransform(obj: BlenderObject, scene: Scene, context: Option<ViewContext>, host: Host,
                                     transformation: seq<real>, exported: Option<ExportedObject>, updateMesh: bool,
                                     dupliSuffix: string)
    requires MaterialsStayOutOfObjects(host)
    requires var r := Convert(obj, scene, context, host, transformation, exported, updateMesh, dupliSuffix);
      r.Converted? && r.exported.Some? && DistinctNames(r.exported.value.meshDefinitions)
    requires |transformation| > 0
    requires context.Some? || UseObjMotionBlur(obj, scene) || |dupliSuffix| > 0
    ensures var r := Convert(obj, scene, context, host, transformation, exported, updateMesh, dupliSuffix);
      var defs := r.exported.value.meshDefinitions;
      && (updateMesh ==> defs == host.defineMesh(ConvertName(obj, context.Some?, dupliSuffix), None))
      && forall i :: 0 <= i < |defs| ==>
           ObjectKey(defs[i].name, "transformation") in r.props
           && r.props[ObjectKey(defs[i].name, "transformation")] == Floats(transformation)
  {
    if UseObjMotionBlur(obj, scene) {
      MotionBlurImpliesInstancing(obj, scene, context.Some?);
    }
    assert Instanced(obj, scene, context.Some?, dupliSuffix);
    ConvertDefinesParts(obj, scene, context, host, transformation, exported, updateMesh, dupliSuffix);
  }

  /**
   * Without instancing (a final render of an object with no motion blur that
   * is not a duplicate) the transformation is baked into the mesh and no
   * part carries one.
   */
  lemma PlainPartsBakeTransform(obj: BlenderObject, scene: Scene, context: Option<ViewContext>, host: Host,
                                transformation: seq<real>, exported: Option<ExportedObject>, updateMesh: bool,
                                dupliSuffix: string)
    requires MaterialsStayOutOfObjects(host)
    requires var r := Convert(obj, scene, context, host, transformation, exported, updateMesh, dupliSuffix);
      r.Converted? && r.exported.Some? && DistinctNames(r.exported.value.meshDefinitions)
    requires context.None? && !UseObjMotionBlur(obj, scene) && |dupliSuffix| == 0
    ensures var r := Convert(obj, scene, context, host, transformation, exported, updateMesh, dupliSuffix);
      var defs := r.exported.value.meshDefinitions;
      && (updateMesh ==> defs == host.defineMesh(ConvertName(obj, false, dupliSuffix), Some(transformation)))
      && forall i :: 0 <= i < |defs| ==> ObjectKey(defs[i].name, "transformation") !in r.props
  {
    assert !Instanced(obj, scene, false, dupliSuffix);
    ConvertDefinesParts(obj, scene, context, host, transformation, exported, updateMesh, dupliSuffix);
  }
}
