/** The Blender wood procedural texture node: its enum settings, its buttons and its export. */
module BlenderWood {
  import opened Maybe
  import opened Strings
  import opened PropertySets
  import opened Geometry

  /** The `wood_type` enum; `bands` is the default. */
  datatype WoodType = Bands | Rings | BandNoise | RingNoise

  const DefaultWoodType := Bands

  function WoodTypeId(w: WoodType): string {
    match w
    case Bands => "bands"
    case Rings => "rings"
    case BandNoise => "bandnoise"
    case RingNoise => "ringnoise"
  }

  /** The identifiers in the order the enum lists them. */
  const WoodTypeItems: seq<string> := ["bands", "rings", "bandnoise", "ringnoise"]

  function ParseWoodType(s: string): (r: Option<WoodType>)
    ensures r.Some? <==> s in WoodTypeItems
  {
    if s == "bands" then Some(Bands)
    else if s == "rings" then Some(Rings)
    else if s == "bandnoise" then Some(BandNoise)
    else if s == "ringnoise" then Some(RingNoise)
    else None
  }

  /** An identifier names exactly one wood type, and every wood type has one in the item list. */
  lemma WoodTypeIdRoundTrip(w: WoodType, s: string)
    ensures WoodTypeId(w) in WoodTypeItems
    ensures ParseWoodType(WoodTypeId(w)) == Some(w)
    ensures ParseWoodType(s) == Some(w) ==> WoodTypeId(w) == s
  {
  }

  /** The `noise_basis2` enum (the wave shape); `sin` is the default. */
  datatype NoiseBasis2 = Sin | Saw | Tri

  const DefaultNoiseBasis2 := Sin

  function NoiseBasis2Id(b: NoiseBasis2): string {
    match b
    case Sin => "sin"
    case Saw => "saw"
    case Tri => "tri"
  }

  const NoiseBasis2Items: seq<string> := ["sin", "saw", "tri"]

  function ParseNoiseBasis2(s: string): (r: Option<NoiseBasis2>)
    ensures r.Some? <==> s in NoiseBasis2Items
  {
    if s == "sin" then Some(Sin)
    else if s == "saw" then Some(Saw)
    else if s == "tri" then Some(Tri)
    else None
  }

  lemma NoiseBasis2IdRoundTrip(b: NoiseBasis2, s: string)
    ensures NoiseBasis2Id(b) in NoiseBasis2Items
    ensures ParseNoiseBasis2(NoiseBasis2Id(b)) == Some(b)
    ensures ParseNoiseBasis2(s) == Some(b) ==> NoiseBasis2Id(b) == s
  {
  }

  /**
   * The node's settings. `noiseBasis` and `noiseType` range over enums
   * shared with other texture nodes and are kept as their identifiers.
   */
  datatype WoodNode = WoodNode(
    woodType: WoodType,
    noiseBasis: string,
    noiseBasis2: NoiseBasis2,
    noiseType: string,
    noiseSize: real,
    turbulence: real,
    bright: real,
    contrast: real)

  const DefaultWoodNode := WoodNode(DefaultWoodType, "blender_original", DefaultNoiseBasis2, "soft_noise",
                                    0.25, 5.0, 1.0, 1.0)

  /** `draw_buttons` shows the noise type control when the wood type's identifier ends in `noise`. */
  function ShowsNoiseType(node: WoodNode): (r: bool)
    ensures r <==> node.woodType == BandNoise || node.woodType == RingNoise
  {
    var id := WoodTypeId(node.woodType);
    assert id[|id| - 5..] == match node.woodType
      case Bands => "bands"
      case Rings => "rings"
      case BandNoise => "noise"
      case RingNoise => "noise";
    EndsWith(id, "noise")
  }

  /** The keys `export` writes. */
  const ExportKeys: set<string> := {"type", "woodtype", "noisebasis", "noisebasis2", "noisetype", "noisesize",
                                    "turbulence", "bright", "contrast", "mapping.type", "mapping.transformation"}

  /**
   * `export`: the `blender_wood` texture with the node's settings copied
   * unchanged, and the 3D mapping socket's type and column-major matrix.
   * `ExportSettings` and `ExportMapping` state the values.
   */
  function Export(node: WoodNode, mappingType: string, transformation: seq<seq<real>>): (r: Props)
    requires IsMatrix4(transformation)
    ensures r.Keys == ExportKeys
  {
    map[
      "type" := Str("blender_wood"),
      "woodtype" := Str(WoodTypeId(node.woodType)),
      "noisebasis" := Str(node.noiseBasis),
      "noisebasis2" := Str(NoiseBasis2Id(node.noiseBasis2)),
      "noisetype" := Str(node.noiseType),
      "noisesize" := Num(node.noiseSize),
      "turbulence" := Num(node.turbulence),
      "bright" := Num(node.bright),
      "contrast" := Num(node.contrast),
      "mapping.type" := Str(mappingType),
      "mapping.transformation" := Floats(MatrixToList(transformation))]
  }

  /** The texture type is `blender_wood`, and every setting of the node is exported unchanged under its own key. */
  lemma ExportSettings(node: WoodNode, mappingType: string, transformation: seq<seq<real>>)
    requires IsMatrix4(transformation)
    ensures var r := Export(node, mappingType, transformation);
      && r["type"] == Str("blender_wood")
      && r["woodtype"] == Str(WoodTypeId(node.woodType)) && r["noisebasis2"] == Str(NoiseBasis2Id(node.noiseBasis2))
      && r["noisebasis"] == Str(node.noiseBasis) && r["noisetype"] == Str(node.noiseType)
      && r["noisesize"] == Num(node.noiseSize) && r["turbulence"] == Num(node.turbulence)
      && r["bright"] == Num(node.bright) && r["contrast"] == Num(node.contrast)
  {
  }

  /** The mapping type is copied and the mapping matrix is flattened column by column. */
  lemma ExportMapping(node: WoodNode, mappingType: string, transformation: seq<seq<real>>)
    requires IsMatrix4(transformation)
    ensures var r := Export(node, mappingType, transformation);
      && r["mapping.type"] == Str(mappingType)
      && r["mapping.transformation"].Floats? && |r["mapping.transformation"].xs| == 16
      && forall c, row :: 0 <= c < 4 && 0 <= row < 4 ==>
           r["mapping.transformation"].xs[4 * c + row] == transformation[row][c]
  {
  }

  /** The exported settings read back to the node they came from. */
  lemma ExportRoundTrip(node: WoodNode, mappingType: string, transformation: seq<seq<real>>)
    requires IsMatrix4(transformation)
    ensures var r := Export(node, mappingType, transformation);
      && ParseWoodType(r["woodtype"].s) == Some(node.woodType)
      && ParseNoiseBasis2(r["noisebasis2"].s) == Some(node.noiseBasis2)
      && ListToMatrix(r["mapping.transformation"].xs) == transformation
  {
    var r := Export(node, mappingType, transformation);
    ExportSettings(node, mappingType, transformation);
    ExportMapping(node, mappingType, transformation);
    WoodTypeIdRoundTrip(node.woodType, "");
    NoiseBasis2IdRoundTrip(node.noiseBasis2, "");
    assert r["mapping.transformation"].xs == MatrixToList(transformation);
    MatrixListRoundTrip(transformation);
  }
}
