/** Whether an object is exported at all, and whether it is exported as an instance. */
module Visibility {
  import opened Maybe
  import opened Blender

  /** Element-wise conjunction of three layer masks, as long as the shortest of them. */
  function ZipAnd3(a: seq<bool>, b: seq<bool>, c: seq<bool>): (r: seq<bool>)
    ensures |r| <= |a| && |r| <= |b| && |r| <= |c|
    ensures |r| == |a| || |r| == |b| || |r| == |c|
    ensures forall i :: 0 <= i < |r| ==> r[i] == (a[i] && b[i] && c[i])
    decreases |a|
  {
    if |a| == 0 || |b| == 0 || |c| == 0 then []
    else [a[0] && b[0] && c[0]] + ZipAnd3(a[1..], b[1..], c[1..])
  }

  /** Disjunction of all the flags, starting from `acc`. */
  function FoldOr(xs: seq<bool>, acc: bool): bool
    decreases |xs|
  {
    if |xs| == 0 then acc else FoldOr(xs[1..], acc || xs[0])
  }

  lemma {:induction false} FoldOrIff(xs: seq<bool>, acc: bool)
    ensures FoldOr(xs, acc) <==> acc || exists i :: 0 <= i < |xs| && xs[i]
    decreases |xs|
  {
    if |xs| > 0 {
      FoldOrIff(xs[1..], acc || xs[0]);
      if exists i :: 0 <= i < |xs| && xs[i] {
        var i :| 0 <= i < |xs| && xs[i];
        if i > 0 {
          assert xs[1..][i - 1];
        }
      }
    }
  }

  /** Some layer is set on the object, in the scene and in the active render layer. */
  ghost predicate SharesLayer(obj: BlenderObject, scene: Scene) {
    exists i :: 0 <= i < |obj.layers| && i < |scene.layers| && i < |scene.renderLayer|
      && obj.layers[i] && scene.layers[i] && scene.renderLayer[i]
  }

  /** The layer test of `is_obj_visible`: the masks are combined per layer and then or-ed together. */
  function OnVisibleLayer(obj: BlenderObject, scene: Scene): (r: bool)
    ensures r <==> SharesLayer(obj, scene)
  {
    OnVisibleLayerIff(obj, scene);
    FoldOr(ZipAnd3(obj.layers, scene.layers, scene.renderLayer), false)
  }

  lemma OnVisibleLayerIff(obj: BlenderObject, scene: Scene)
    ensures FoldOr(ZipAnd3(obj.layers, scene.layers, scene.renderLayer), false) <==> SharesLayer(obj, scene)
  {
    var flags := ZipAnd3(obj.layers, scene.layers, scene.renderLayer);
    FoldOrIff(flags, false);
    if FoldOr(flags, false) {
      var i :| 0 <= i < |flags| && flags[i];
      assert obj.layers[i] && scene.layers[i] && scene.renderLayer[i];
    } else {
      forall i | 0 <= i < |obj.layers| && i < |scene.layers| && i < |scene.renderLayer|
        ensures !(obj.layers[i] && scene.layers[i] && scene.renderLayer[i])
      {
        assert !flags[i];
      }
    }
  }

  /** The object is the clipping plane of the scene camera. */
  predicate IsClippingPlane(obj: BlenderObject, scene: Scene) {
    scene.camera.Some? && scene.camera.value.clippingPlane == Some(obj.id.pointer)
  }

  /**
   * `is_obj_visible`: duplis are always visible; the camera's clipping plane
   * never is; any other object is visible when it shares a layer with the
   * scene and the render layer and is not hidden (`hide` in the viewport,
   * `hide_render` in final renders).
   */
  function IsObjVisible(obj: BlenderObject, scene: Scene, inViewport: bool, isDupli: bool): (r: bool)
    ensures isDupli ==> r
    ensures !isDupli && IsClippingPlane(obj, scene) ==> !r
    ensures !isDupli && !IsClippingPlane(obj, scene) ==>
      (r <==> SharesLayer(obj, scene) && !(if inViewport then obj.hide else obj.hideRender))
  {
    if isDupli then true
    else
      var hiddenInOutliner := if inViewport then obj.hide else obj.hideRender;
      if IsClippingPlane(obj, scene) then false
      else OnVisibleLayer(obj, scene) && !hiddenInOutliner
  }

  /** Whether some particle system of the list renders its emitter. */
  function AnyRenderEmitter(systems: seq<ParticleSystem>): (r: bool)
    decreases |systems|
  {
    if |systems| == 0 then false
    else if systems[0].useRenderEmitter then true
    else AnyRenderEmitter(systems[1..])
  }

  lemma {:induction false} AnyRenderEmitterIff(systems: seq<ParticleSystem>)
    ensures AnyRenderEmitter(systems) <==> exists i :: 0 <= i < |systems| && systems[i].useRenderEmitter
    decreases |systems|
  {
    if |systems| > 0 {
      AnyRenderEmitterIff(systems[1..]);
      if exists i :: 0 <= i < |systems| && systems[i].useRenderEmitter {
        var i :| 0 <= i < |systems| && systems[i].useRenderEmitter;
        if i > 0 {
          assert systems[1..][i - 1].useRenderEmitter;
        }
      }
    }
  }

  /**
   * `is_duplicator_visible`: a duplicator is shown only through a particle
   * system that renders its emitter; plain dupliverts/faces/frames never are.
   */
  function IsDuplicatorVisible(obj: BlenderObject): (r: bool)
    requires obj.isDuplicator
    ensures r <==> exists i :: 0 <= i < |obj.particleSystems| && obj.particleSystems[i].useRenderEmitter
  {
    AnyRenderEmitterIff(obj.particleSystems);
    AnyRenderEmitter(obj.particleSystems)
  }

  /** Whether every element equals `first`. */
  function AllEqualTo<T(==)>(xs: seq<T>, first: T): bool
    decreases |xs|
  {
    |xs| == 0 || (xs[0] == first && AllEqualTo(xs[1..], first))
  }

  lemma {:induction false} AllEqualToIff<T>(xs: seq<T>, first: T)
    ensures AllEqualTo(xs, first) <==> forall i :: 0 <= i < |xs| ==> xs[i] == first
    decreases |xs|
  {
    if |xs| > 0 {
      AllEqualToIff(xs[1..], first);
      assert forall i :: 1 <= i < |xs| ==> xs[i] == xs[1..][i - 1];
    }
  }

  /** `all_elems_equal`: the (non-empty) list holds one value only. */
  function AllElemsEqual<T(==)>(xs: seq<T>): (r: bool)
    requires |xs| > 0
    ensures r <==> forall i, j :: 0 <= i < |xs| && 0 <= j < |xs| ==> xs[i] == xs[j]
  {
    AllEqualToIff(xs, xs[0]);
    AllEqualTo(xs, xs[0])
  }

  /**
   * `use_obj_motion_blur`: needs a scene camera whose motion blur is on with
   * object blur, and the object's own switch.
   */
  function UseObjMotionBlur(obj: BlenderObject, scene: Scene): (r: bool)
    ensures r <==> scene.camera.Some? && scene.camera.value.motionBlur.enable
                   && scene.camera.value.motionBlur.objectBlur && obj.enableMotionBlur
  {
    match scene.camera
    case None => false
    case Some(cam) =>
      var objectBlur := cam.motionBlur.enable && cam.motionBlur.objectBlur;
      objectBlur && obj.enableMotionBlur
  }

  /** `use_instancing`: always in the viewport, otherwise exactly when the object uses motion blur. */
  function UseInstancing(obj: BlenderObject, scene: Scene, inViewport: bool): (r: bool)
    ensures inViewport ==> r
    ensures !inViewport ==> (r <==> UseObjMotionBlur(obj, scene))
  {
    if inViewport then true
    else if UseObjMotionBlur(obj, scene) then true
    else false
  }

  /**
   * An object with motion blur is always instanced, in the viewport and in
   * final renders, since blur needs the per-object transformation.
   */
  lemma MotionBlurImpliesInstancing(obj: BlenderObject, scene: Scene, inViewport: bool)
    requires UseObjMotionBlur(obj, scene)
    ensures UseInstancing(obj, scene, inViewport)
  {
  }

  /** Without instancing the render is a final one and the object has no motion blur. */
  lemma NotInstancedMeansFinalWithoutBlur(obj: BlenderObject, scene: Scene, inViewport: bool)
    requires !UseInstancing(obj, scene, inViewport)
    ensures !inViewport && !UseObjMotionBlur(obj, scene)
  {
  }
}
