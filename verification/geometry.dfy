/** Scalar world scale, matrix flattening, render border choice and the active UV lookup. */
module Geometry {
  import opened Maybe
  import opened Blender

  /** `get_worldscale(scene, as_scalematrix=False)`: the unit scale, in metric and imperial systems only. */
  function GetWorldscale(units: UnitSettings): (ws: real)
    ensures units.system in {"METRIC", "IMPERIAL"} ==> ws == units.scaleLength
    ensures units.system !in {"METRIC", "IMPERIAL"} ==> ws == 1.0
  {
    if units.system == "METRIC" || units.system == "IMPERIAL" then units.scaleLength else 1.0
  }

  /**
   * Outside the metric and imperial systems the scene's unit scale has no
   * effect: the world scale is the same whatever scale length is set.
   */
  lemma WorldscaleIgnoresScaleWithoutUnits(units: UnitSettings, scaleLength: real)
    requires units.system != "METRIC" && units.system != "IMPERIAL"
    ensures GetWorldscale(units.(scaleLength := scaleLength)) == GetWorldscale(units) == 1.0
  {
  }

  /** A 4x4 matrix, indexed `m[row][column]` as mathutils does. */
  predicate IsMatrix4(m: seq<seq<real>>) {
    |m| == 4 && forall r :: 0 <= r < 4 ==> |m[r]| == 4
  }

  /**
   * `matrix_to_list` without world scale or inversion: the 16 entries in
   * column-major order, the layout the renderer expects.
   */
  function MatrixToList(m: seq<seq<real>>): (l: seq<real>)
    requires IsMatrix4(m)
    ensures |l| == 16
    ensures forall c, r :: 0 <= c < 4 && 0 <= r < 4 ==> l[4 * c + r] == m[r][c]
  {
    [m[0][0], m[1][0], m[2][0], m[3][0],
     m[0][1], m[1][1], m[2][1], m[3][1],
     m[0][2], m[1][2], m[2][2], m[3][2],
     m[0][3], m[1][3], m[2][3], m[3][3]]
  }

  /** Rebuilds the row-indexed matrix from a column-major list of 16 entries. */
  function ListToMatrix(l: seq<real>): (m: seq<seq<real>>)
    requires |l| == 16
    ensures IsMatrix4(m)
  {
    seq(4, r requires 0 <= r < 4 => seq(4, c requires 0 <= c < 4 => l[4 * c + r]))
  }

  /** Flattening loses nothing: the matrix comes back from its list. */
  lemma MatrixListRoundTrip(m: seq<seq<real>>)
    requires IsMatrix4(m)
    ensures ListToMatrix(MatrixToList(m)) == m
  {
    var m' := ListToMatrix(MatrixToList(m));
    forall r | 0 <= r < 4
      ensures m'[r] == m[r]
    {
    }
  }

  /** And every list of 16 entries is the flattening of some matrix. */
  lemma ListMatrixRoundTrip(l: seq<real>)
    requires |l| == 16
    ensures MatrixToList(ListToMatrix(l)) == l
  {
    var l' := MatrixToList(ListToMatrix(l));
    forall i | 0 <= i < 16
      ensures l'[i] == l[i]
    {
      assert i == 4 * (i / 4) + i % 4;
    }
  }

  /** True when the viewport is a free 3D view rather than looking through the scene camera. */
  predicate InFreeView(context: Option<ViewContext>) {
    context.Some? && context.value.viewPerspective in {"ORTHO", "PERSP"}
  }

  /**
   * `calc_blender_border`: `[min_x, max_x, min_y, max_y]` of the border that
   * applies (the 3D view's own in a free view, the scene's otherwise), or the
   * full frame `[0, 1, 0, 1]` when that border is switched off.
   */
  function CalcBlenderBorder(scene: Scene, context: Option<ViewContext>): (r: seq<real>)
    ensures |r| == 4
    ensures var b := if InFreeView(context) then context.value.spaceBorder else scene.border;
      (b.use ==> r == [b.minX, b.maxX, b.minY, b.maxY]) && (!b.use ==> r == [0.0, 1.0, 0.0, 1.0])
  {
    var b := if InFreeView(context) then context.value.spaceBorder else scene.border;
    if b.use then [b.minX, b.maxX, b.minY, b.maxY] else [0.0, 1.0, 0.0, 1.0]
  }

  /** A border that lies inside the frame. */
  predicate WellFormedBorder(b: Border) {
    0.0 <= b.minX <= b.maxX <= 1.0 && 0.0 <= b.minY <= b.maxY <= 1.0
  }

  /** The chosen border is always a sub-rectangle of the frame when the settings are. */
  lemma BorderInsideFrame(scene: Scene, context: Option<ViewContext>)
    requires WellFormedBorder(scene.border)
    requires context.Some? ==> WellFormedBorder(context.value.spaceBorder)
    ensures var r := CalcBlenderBorder(scene, context);
      0.0 <= r[0] <= r[1] <= 1.0 && 0.0 <= r[2] <= r[3] <= 1.0
  {
  }

  /** Outside a free view the viewport's own border never matters. */
  lemma BorderIgnoresViewportOutsideFreeView(scene: Scene, c1: Option<ViewContext>, c2: Option<ViewContext>)
    requires !InFreeView(c1) && !InFreeView(c2)
    ensures CalcBlenderBorder(scene, c1) == CalcBlenderBorder(scene, c2)
  {
  }

  datatype UvTexture = UvTexture(name: string, activeRender: bool)

  /** `find_active_uv`: the first UV layer marked active for rendering, or `None`. */
  function FindActiveUv(uvTextures: seq<UvTexture>): (r: Option<UvTexture>)
    ensures r.Some? ==> r.value.activeRender
    ensures r.Some? ==> exists i :: 0 <= i < |uvTextures| && uvTextures[i] == r.value
                          && forall j :: 0 <= j < i ==> !uvTextures[j].activeRender
    ensures r.None? <==> forall j :: 0 <= j < |uvTextures| ==> !uvTextures[j].activeRender
  {
    match FirstIndex(uvTextures, (uv: UvTexture) => uv.activeRender)
    case None => None
    case Some(i) => Some(uvTextures[i])
  }
}
