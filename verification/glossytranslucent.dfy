/**
 * The glossy translucent material node: which input sockets are enabled by
 * its switches, and the definitions it exports for the renderer.
 */
module GlossyTranslucent {
  import opened Strings
  import opened PropertySets

  /** An input socket: whether it is enabled (shown) and the value its export yields. */
  datatype Socket = Socket(enabled: bool, value: Value)

  datatype GlossyNode = GlossyNode(
    useAnisotropy: bool,
    multibounce: bool,
    useIor: bool,
    useBackface: bool,   // "Double Sided"
    multibounceBf: bool,
    useIorBf: bool,
    inputs: map<string, Socket>)

  // ---- Socket enable callbacks

  /** `update_use_ior`: the `IOR` socket is enabled exactly when `use_ior` is on. */
  function UpdateUseIor(node: GlossyNode): (r: GlossyNode)
    requires "IOR" in node.inputs
    ensures r.inputs.Keys == node.inputs.Keys
    ensures r.inputs["IOR"] == node.inputs["IOR"].(enabled := node.useIor)
    ensures forall k :: k in node.inputs && k != "IOR" ==> r.inputs[k] == node.inputs[k]
    ensures r.(inputs := node.inputs) == node
  {
    node.(inputs := node.inputs["IOR" := node.inputs["IOR"].(enabled := node.useIor)])
  }

  /** `update_use_ior_bf`: the `BF IOR` socket is enabled exactly when `use_ior_bf` is on. */
  function UpdateUseIorBf(node: GlossyNode): (r: GlossyNode)
    requires "BF IOR" in node.inputs
    ensures r.inputs.Keys == node.inputs.Keys
    ensures r.inputs["BF IOR"] == node.inputs["BF IOR"].(enabled := node.useIorBf)
    ensures forall k :: k in node.inputs && k != "BF IOR" ==> r.inputs[k] == node.inputs[k]
    ensures r.(inputs := node.inputs) == node
  {
    node.(inputs := node.inputs["BF IOR" := node.inputs["BF IOR"].(enabled := node.useIorBf)])
  }

  /** The enable state `update_use_backface` gives a backface socket. */
  function BackfaceEnabled(node: GlossyNode, socket: string): bool {
    if socket == "BF V-Roughness" then node.useBackface && node.useAnisotropy
    else if socket == "BF IOR" then node.useBackface && node.useIorBf
    else node.useBackface
  }

  /**
   * `update_use_backface`: every input whose name starts with `"BF "` gets
   * its enable state from the backface switch (combined with anisotropy for
   * `BF V-Roughness` and with `use_ior_bf` for `BF IOR`); other inputs are
   * untouched.
   */
  function UpdateUseBackface(node: GlossyNode): (r: GlossyNode)
    ensures r.inputs.Keys == node.inputs.Keys
    ensures forall k :: k in node.inputs && !StartsWith(k, "BF ") ==> r.inputs[k] == node.inputs[k]
    ensures forall k :: k in node.inputs && StartsWith(k, "BF ") ==>
      r.inputs[k].value == node.inputs[k].value
      && (k == "BF V-Roughness" ==> r.inputs[k].enabled == (node.useBackface && node.useAnisotropy))
      && (k == "BF IOR" ==> r.inputs[k].enabled == (node.useBackface && node.useIorBf))
      && (k != "BF V-Roughness" && k != "BF IOR" ==> r.inputs[k].enabled == node.useBackface)
    ensures r.(inputs := node.inputs) == node
  {
    var inputs := map k | k in node.inputs ::
      if StartsWith(k, "BF ") then node.inputs[k].(enabled := BackfaceEnabled(node, k)) else node.inputs[k];
    node.(inputs := inputs)
  }

  /** Running the backface callback twice changes nothing more. */
  lemma UpdateUseBackfaceIdempotent(node: GlossyNode)
    ensures UpdateUseBackface(UpdateUseBackface(node)) == UpdateUseBackface(node)
  {
    var once := UpdateUseBackface(node);
    var twice := UpdateUseBackface(once);
    assert twice.inputs == once.inputs;
  }

  // ---- Switches as Blender sets them: assign the property, then run its update callback

  function SetUseIor(node: GlossyNode, on: bool): GlossyNode
    requires "IOR" in node.inputs
  {
    UpdateUseIor(node.(useIor := on))
  }

  function SetUseIorBf(node: GlossyNode, on: bool): GlossyNode
    requires "BF IOR" in node.inputs
  {
    UpdateUseIorBf(node.(useIorBf := on))
  }

  function SetUseBackface(node: GlossyNode, on: bool): GlossyNode {
    UpdateUseBackface(node.(useBackface := on))
  }

  /** The IOR sockets are shown exactly when they are exported. */
  predicate IorConsistent(node: GlossyNode) {
    && "IOR" in node.inputs && "BF IOR" in node.inputs
    && node.inputs["IOR"].enabled == node.useIor
    && node.inputs["BF IOR"].enabled == (node.useBackface && node.useIorBf)
  }

  /** The switches `draw_buttons` offers: the backface ones only when the node is double sided. */
  function DrawnSwitches(node: GlossyNode): (r: set<string>)
    ensures "use_ior_bf" in r <==> node.useBackface
  {
    {"multibounce", "use_ior", "use_backface"} + (if node.useBackface then {"multibounce_bf", "use_ior_bf"} else {})
  }

  lemma SetUseIorKeepsConsistent(node: GlossyNode, on: bool)
    requires IorConsistent(node)
    ensures IorConsistent(SetUseIor(node, on))
  {
  }

  lemma SetUseBackfaceKeepsConsistent(node: GlossyNode, on: bool)
    requires IorConsistent(node)
    ensures IorConsistent(SetUseBackface(node, on))
  {
    var r := SetUseBackface(node, on);
    assert StartsWith("BF IOR", "BF ");
    assert "IOR"[0] != "BF "[0];
    assert r.inputs["IOR"] == node.inputs["IOR"];
  }

  /** Toggling `use_ior_bf` keeps the IOR sockets consistent when the UI offers the toggle. */
  lemma SetUseIorBfKeepsConsistent(node: GlossyNode, on: bool)
    requires IorConsistent(node)
    requires "use_ior_bf" in DrawnSwitches(node)
    ensures IorConsistent(SetUseIorBf(node, on))
  {
  }

  /**
   * Set through the API on a single-sided node, `use_ior_bf` enables the
   * `BF IOR` socket although the backface is not exported: the callback does
   * not look at `use_backface`.
   */
  lemma SetUseIorBfSingleSided(node: GlossyNode)
    requires IorConsistent(node) && !node.useBackface
    ensures SetUseIorBf(node, true).inputs["BF IOR"].enabled
    ensures !IorConsistent(SetUseIorBf(node, true))
  {
  }

  // ---- init

  const FrontColor := Floats([0.5, 0.5, 0.5])
  const SpecularColor := Floats([0.05, 0.05, 0.05])
  const Black := Floats([0.0, 0.0, 0.0])

  /**
   * The node after `init`: every switch off, and the sockets `init` adds
   * (sockets start enabled), except `IOR` and `BF IOR`, which it disables.
   */
  function Init(): (r: GlossyNode)
    ensures IorConsistent(r)
    ensures !r.inputs["IOR"].enabled && !r.inputs["BF IOR"].enabled
    ensures HasExportInputs(r)
  {
    GlossyNode(false, false, false, false, false, false, map[
      "Diffuse Color" := Socket(true, FrontColor),
      "Transmission Color" := Socket(true, FrontColor),
      "Specular Color" := Socket(true, SpecularColor),
      "IOR" := Socket(false, Num(1.5)),
      "Absorption Color" := Socket(true, Black),
      "Absorption Depth (nm)" := Socket(true, Num(0.0)),
      "BF Specular Color" := Socket(true, SpecularColor),
      "BF IOR" := Socket(false, Num(1.5)),
      "BF Absorption Color" := Socket(true, Black),
      "BF Absorption Depth (nm)" := Socket(true, Num(0.0))])
  }

  // ---- export

  const FrontKeys: set<string> := {"type", "kd", "kt", "multibounce", "ks", "ka", "d"}
  const BackfaceKeys: set<string> := {"multibounce_bf", "ks_bf", "ka_bf", "d_bf"}

  /** The sockets `export` reads under the node's switches are present. */
  predicate HasExportInputs(node: GlossyNode) {
    var inp := node.inputs;
    && "Diffuse Color" in inp && "Transmission Color" in inp && "Specular Color" in inp
    && "Absorption Color" in inp && "Absorption Depth (nm)" in inp
    && (node.useIor ==> "IOR" in inp)
    && (node.useBackface ==>
          "BF Specular Color" in inp && "BF Absorption Color" in inp && "BF Absorption Depth (nm)" in inp)
    && (node.useBackface && node.useIorBf ==> "BF IOR" in inp)
  }

  /**
   * `export`, up to the definitions it builds before roughness, common
   * inputs and the base export are added.
   */
  function Export(node: GlossyNode): (r: Props)
    requires HasExportInputs(node)
    ensures r.Keys == FrontKeys
                      + (if node.useIor then {"index"} else {})
                      + (if node.useBackface then BackfaceKeys else {})
                      + (if node.useBackface && node.useIorBf then {"index_bf"} else {})
  {
    var inp := node.inputs;
    var ior := if node.useIor then map["index" := inp["IOR"].value] else map[];
    var back := if node.useBackface then BackfaceDefinitions(node) else map[];
    var iorBf := if node.useBackface && node.useIorBf then map["index_bf" := inp["BF IOR"].value] else map[];
    KeyGroupsDisjoint();
    FrontDefinitions(node) + ior + back + iorBf
  }

  lemma KeyGroupsDisjoint()
    ensures FrontKeys !! BackfaceKeys
    ensures "index" !in FrontKeys && "index" !in BackfaceKeys && "index" != "index_bf"
    ensures "index_bf" !in FrontKeys && "index_bf" !in BackfaceKeys
  {
  }

  /** The definitions every glossy translucent export carries. */
  function FrontDefinitions(node: GlossyNode): (r: Props)
    requires HasExportInputs(node)
    ensures r.Keys == FrontKeys
    ensures r["type"] == Str("glossytranslucent") && r["multibounce"] == Bool(node.multibounce)
    ensures r["kd"] == node.inputs["Diffuse Color"].value && r["kt"] == node.inputs["Transmission Color"].value
    ensures r["ks"] == node.inputs["Specular Color"].value && r["ka"] == node.inputs["Absorption Color"].value
    ensures r["d"] == node.inputs["Absorption Depth (nm)"].value
  {
    var inp := node.inputs;
    map[
      "type" := Str("glossytranslucent"),
      "kd" := inp["Diffuse Color"].value,
      "kt" := inp["Transmission Color"].value,
      "multibounce" := Bool(node.multibounce),
      "ks" := inp["Specular Color"].value,
      "ka" := inp["Absorption Color"].value,
      "d" := inp["Absorption Depth (nm)"].value]
  }

  /** The back face definitions of a double-sided export. */
  function BackfaceDefinitions(node: GlossyNode): (r: Props)
    requires HasExportInputs(node) && node.useBackface
    ensures r.Keys == BackfaceKeys
    ensures r["multibounce_bf"] == Bool(node.multibounceBf)
    ensures r["ks_bf"] == node.inputs["BF Specular Color"].value
    ensures r["ka_bf"] == node.inputs["BF Absorption Color"].value
    ensures r["d_bf"] == node.inputs["BF Absorption Depth (nm)"].value
  {
    var inp := node.inputs;
    map[
      "multibounce_bf" := Bool(node.multibounceBf),
      "ks_bf" := inp["BF Specular Color"].value,
      "ka_bf" := inp["BF Absorption Color"].value,
      "d_bf" := inp["BF Absorption Depth (nm)"].value]
  }

  /**
   * The type is `glossytranslucent`, the multibounce switch is copied, and
   * each colour, depth and IOR definition carries the export of its own socket.
   */
  lemma ExportFrontValues(node: GlossyNode)
    requires HasExportInputs(node)
    ensures var r := Export(node);
      && r["type"] == Str("glossytranslucent") && r["multibounce"] == Bool(node.multibounce)
      && r["kd"] == node.inputs["Diffuse Color"].value && r["kt"] == node.inputs["Transmission Color"].value
      && r["ks"] == node.inputs["Specular Color"].value && r["ka"] == node.inputs["Absorption Color"].value
      && r["d"] == node.inputs["Absorption Depth (nm)"].value
      && (node.useIor ==> r["index"] == node.inputs["IOR"].value)
  {
    KeyGroupsDisjoint();
  }

  /** On a double-sided node the backface multibounce switch and sockets are exported the same way. */
  lemma ExportBackfaceValues(node: GlossyNode)
    requires HasExportInputs(node) && node.useBackface
    ensures var r := Export(node);
      && r["multibounce_bf"] == Bool(node.multibounceBf)
      && r["ks_bf"] == node.inputs["BF Specular Color"].value
      && r["ka_bf"] == node.inputs["BF Absorption Color"].value
      && r["d_bf"] == node.inputs["BF Absorption Depth (nm)"].value
      && (node.useIorBf ==> r["index_bf"] == node.inputs["BF IOR"].value)
  {
    KeyGroupsDisjoint();
  }

  /** The backface IOR is never exported for a single-sided node. */
  lemma NoBackfaceIorWhenSingleSided(node: GlossyNode)
    requires HasExportInputs(node) && !node.useBackface
    ensures "index_bf" !in Export(node)
    ensures forall k :: k in BackfaceKeys ==> k !in Export(node)
  {
    KeyGroupsDisjoint();
  }

  /** On a consistent node a socket's value is exported exactly when the socket is enabled. */
  lemma ExportedIorMatchesEnabled(node: GlossyNode)
    requires HasExportInputs(node) && IorConsistent(node)
    ensures ("index" in Export(node)) == node.inputs["IOR"].enabled
    ensures ("index_bf" in Export(node)) == node.inputs["BF IOR"].enabled
  {
    KeyGroupsDisjoint();
  }
}
