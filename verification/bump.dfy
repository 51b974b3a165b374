/**
 * The bump texture node: a scale texture of the value by the bump height,
 * with the scene's world scale applied either directly or through a helper
 * texture when the height is itself a texture.
 */
module Bump {
  import opened PropertySets
  import opened Blender
  import opened Geometry

  /** The `Bump Height` input: linked to a texture (exported as its name) or a plain height. */
  datatype BumpHeight = Linked(texture: Value) | Unlinked(height: real)

  /** The node's definitions and the helper texture properties written next to them. */
  datatype BumpExport = BumpExport(definitions: Props, helperProps: Props)

  /** The helper texture's name; `nodeName` is the node's own `make_name()`. */
  function HelperName(nodeName: string): string {
    nodeName + "bump_helper"
  }

  function HelperPrefix(nodeName: string): string {
    "scene.textures." + HelperName(nodeName) + "."
  }

  /** The helper texture: the linked height scaled by the world scale. */
  function HelperDefinitions(bumpHeight: Value, worldscale: real): Props {
    map["type" := Str("scale"), "texture1" := bumpHeight, "texture2" := Num(worldscale)]
  }

  /**
   * `LuxCoreNodeTexBump.export`: a `scale` texture of the `Value` input by the
   * bump height times the world scale. A linked height goes through a helper
   * texture; a plain height is multiplied in directly.
   */
  function Export(value: Value, bumpHeight: BumpHeight, units: UnitSettings, nodeName: string): (r: BumpExport)
    ensures r.definitions.Keys == {"type", "texture1", "texture2"}
    ensures r.definitions["type"] == Str("scale") && r.definitions["texture1"] == value
    ensures bumpHeight.Linked? ==>
      && r.definitions["texture2"] == Str(HelperName(nodeName))
      && r.helperProps.Keys == {HelperPrefix(nodeName) + "type", HelperPrefix(nodeName) + "texture1",
                                HelperPrefix(nodeName) + "texture2"}
      && r.helperProps[HelperPrefix(nodeName) + "type"] == Str("scale")
      && r.helperProps[HelperPrefix(nodeName) + "texture1"] == bumpHeight.texture
      && r.helperProps[HelperPrefix(nodeName) + "texture2"] == Num(GetWorldscale(units))
    ensures bumpHeight.Unlinked? ==>
      r.helperProps == map[] && r.definitions["texture2"] == Num(bumpHeight.height * GetWorldscale(units))
  {
    var worldscale := GetWorldscale(units);
    match bumpHeight
    case Linked(texture) =>
      var texName := HelperName(nodeName);
      var helperPrefix := "scene.textures." + texName + ".";
      var helper := CreateProps(helperPrefix, HelperDefinitions(texture, worldscale));
      assert helper.Keys == {helperPrefix + "type", helperPrefix + "texture1", helperPrefix + "texture2"};
      BumpExport(map["type" := Str("scale"), "texture1" := value, "texture2" := Str(texName)], helper)
    case Unlinked(height) =>
      var scaled := height * worldscale;
      assert scaled == bumpHeight.height * GetWorldscale(units);
      BumpExport(map["type" := Str("scale"), "texture1" := value, "texture2" := Num(scaled)], map[])
  }

  /**
   * A linked and a plain height are scaled by the same world-scale factor:
   * the plain height's `texture2` is that height times the factor the helper
   * texture multiplies a linked height by.
   */
  lemma SameWorldscaleBothWays(value: Value, texture: Value, height: real, units: UnitSettings, nodeName: string)
    ensures var linked := Export(value, Linked(texture), units, nodeName);
      var plain := Export(value, Unlinked(height), units, nodeName);
      plain.definitions["texture2"] == Num(height * linked.helperProps[HelperPrefix(nodeName) + "texture2"].x)
  {
  }

  /** Without a unit system a plain height is exported unchanged. */
  lemma PlainHeightWithoutUnits(value: Value, height: real, units: UnitSettings, nodeName: string)
    requires units.system != "METRIC" && units.system != "IMPERIAL"
    ensures Export(value, Unlinked(height), units, nodeName).definitions["texture2"] == Num(height)
  {
  }

  /** Stripping the helper prefix gives back exactly the helper texture's definitions. */
  lemma HelperRoundTrip(value: Value, texture: Value, units: UnitSettings, nodeName: string)
    ensures StripPrefix(HelperPrefix(nodeName), Export(value, Linked(texture), units, nodeName).helperProps)
            == HelperDefinitions(texture, GetWorldscale(units))
  {
    CreatePropsRoundTrip(HelperPrefix(nodeName), HelperDefinitions(texture, GetWorldscale(units)));
  }

  /** A linked height's `texture2` names a texture that the same export defines, as a `scale` texture. */
  lemma HelperIsDefined(value: Value, texture: Value, units: UnitSettings, nodeName: string)
    ensures var r := Export(value, Linked(texture), units, nodeName);
      r.definitions["texture2"].Str?
      && "scene.textures." + r.definitions["texture2"].s + ".type" in r.helperProps
      && r.helperProps["scene.textures." + r.definitions["texture2"].s + ".type"] == Str("scale")
  {
    var r := Export(value, Linked(texture), units, nodeName);
    assert "scene.textures." + HelperName(nodeName) + ".type" == HelperPrefix(nodeName) + "type";
  }
}
