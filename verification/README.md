# BlendLuxCore exporter core, modelled in Dafny

BlendLuxCore connects Blender to the LuxCore renderer. Most of the add-on is
glue, but under it sits a small layer of pure logic: it turns Blender data
into LuxCore's flat property sets. A property set is a map from dotted keys
such as `scene.objects.<name>.material` to values. This project models that
layer and proves properties of it:

- **Names** (`naming.dfy`, `strings.dfy`). `to_luxcore_name` collapses every run
  of characters outside `[_0-9a-zA-Z]` to `__`. `get_pretty_name` and
  `get_luxcore_name` build export names. A viewport name is the datablock's
  address key. A final-render name is the sanitised pretty name, `_`, and
  that key. `obj_from_key` looks an object up by its key.
- **Property sets** (`props.dfy`). `create_props` prefixes definition keys.
  `Properties.Set` becomes map union.
- **Geometry helpers** (`geometry.dfy`). This covers the scalar world scale,
  the column-major flattening of a 4x4 matrix, the render border choice and
  the active UV lookup.
- **Visibility and instancing** (`visibility.dfy`). This covers
  `is_obj_visible` (a zipped AND folded with OR over the layer flags),
  `is_duplicator_visible`, `all_elems_equal`, `use_obj_motion_blur` and
  `use_instancing`.
- **Object conversion** (`blender_object.dfy`). `convert` applies the
  visibility gates and picks the object or mesh transformation. It then
  defines one renderer object per mesh part, using the slot's material or
  the fallback. `_define_luxcore_object` and `_handle_pointiness` write the
  `scene.objects.*` and `scene.shapes.*` keys.
- **Node serialisers**: the glossy translucent material
  (`glossytranslucent.dfy`), the bump texture (`bump.dfy`) and the Blender
  wood texture (`blenderwood.dfy`). The glossy translucent socket-enable
  callbacks are modelled too.
- **Halt panel** (`halt.dfy`). The halt time is split into hours, minutes and
  seconds, and `poll` decides when the panel shows.

Blender datablocks are immutable records (`blender.dfy`). Object identity is
the datablock's address, a `nat`. Calls into code outside the model enter as
parameters: `to_mesh`, `DefineBlenderMesh`, `material.convert`,
`material.fallback`, a socket's export value and the node's `make_name()`.
In `convert` they are grouped in the `Host` record of total functions. The
search for pointiness nodes is a flag on the node tree.

The code and a plain reading of it differ in one place, and the model follows
the code. In `convert` (export/blender_object.py:57), the check that a cached
object is present sits inside the `try` block. A missing cache therefore does
not fail. The `except` handler logs it as the warning `Object "<name>": `
(an `AssertionError` has an empty message), and the object exports nothing.

## Model

| member | source | states |
|---|---|---|
| `Maybe.FirstIndex` | utils/__init__.py:293-297 | The first index whose element satisfies the test, with no earlier match; `None` exactly when nothing matches. |
| `Strings.NatToString` | utils/__init__.py:33-38 | `str()` of an address is a non-empty string of decimal digits in canonical form: `"0"` for zero, otherwise no leading `0`. |
| `Strings.ParseNatToString` | utils/__init__.py:33-38 | Reading the decimal key back gives the address: `int(str(n)) == n`. |
| `Strings.NatToStringInjective` | utils/__init__.py:33-38 | Different addresses give different keys. |
| `Strings.CanonicalDigitsRendered` | utils/__init__.py:33-38 | A canonical digit string is the rendering of the number it reads as. |
| `Strings.NatToStringCharacterised` | utils/__init__.py:33-38 | A string is the rendering of `n` iff it is a canonical digit string that reads as `n`. |
| `Strings.TitleChars` | utils/__init__.py:56-57 | `title()` keeps the length and upper-cases a letter exactly when the character before it is not a letter, lower-casing the others. |
| `PropertySets.CreateProps` | utils/__init__.py:89-101 | Every definition `k` appears as `prefix + k` with its value; every key produced starts with the prefix and names a definition. |
| `PropertySets.CreatePropsRoundTrip` | utils/__init__.py:89-101 | Stripping the prefix from the created properties gives back exactly the definitions. |
| `Naming.ToLuxcoreName` | utils/__init__.py:24-30 | The sanitised name contains only characters from `[_0-9a-zA-Z]`. |
| `Naming.AllowedRunKept` | utils/__init__.py:30 | A prefix of allowed characters passes through unchanged. |
| `Naming.DisallowedRunCollapsed` | utils/__init__.py:30 | A maximal run of disallowed characters becomes exactly `__`. |
| `Naming.SkipRun` | utils/__init__.py:30 | Skipping a disallowed run stops at the first allowed character. |
| `Naming.LuxcoreNameFixed` | utils/__init__.py:30 | A string of allowed characters is left unchanged. |
| `Naming.ToLuxcoreNameIdempotent` | utils/__init__.py:30 | Sanitising twice gives the same result as sanitising once. |
| `Naming.SanitizeName` | utils/__init__.py:24-30 | The left-to-right scan (copy allowed characters; on a disallowed one emit `__` and skip the run) computes the sanitised name. |
| `Naming.GetPrettyName` | utils/__init__.py:53-59 | The pretty name ends with the datablock's name. Without a type it is the name. With a type it is the title-cased type, `_`, then the name. |
| `Naming.MakeKey` | utils/__init__.py:33-38 | The key is a canonical decimal digit string that reads back as the datablock's address. With `NatToStringCharacterised` this pins it to `str(as_pointer())`. |
| `Naming.GetLuxcoreName` | utils/__init__.py:62-79 | In viewport renders the name is exactly the key. In final renders it is the sanitised pretty name, `_` and the key. |
| `Naming.LuxcoreNameKey` | utils/__init__.py:62-79 | In both modes the text after the last `_` is the key, and it reads back as the address. |
| `Naming.ViewportNameStable` | utils/__init__.py:62-79 | Renaming a datablock or changing its type leaves its viewport name unchanged. Its final-render name keeps the same key suffix. |
| `Naming.LuxcoreNameIsValid` | utils/__init__.py:62-79 | Export names use only allowed characters. |
| `Naming.LuxcoreNamesDistinct` | utils/__init__.py:62-79 | Datablocks at different addresses get different export names, in both modes. |
| `Naming.ObjFromKey` | utils/__init__.py:82-86 | Returns the first object whose key matches, with no earlier match; `None` exactly when no key matches. |
| `Naming.ObjFromOwnKey` | utils/__init__.py:82-86 | When addresses are distinct, looking up an object's own key returns that object. |
| `Geometry.GetWorldscale` | utils/__init__.py:104-117 | The scalar world scale is `scale_length` for METRIC and IMPERIAL units and 1 otherwise. |
| `Geometry.WorldscaleIgnoresScaleWithoutUnits` | utils/__init__.py:104-112 | Outside the metric and imperial systems the world scale is 1 whatever scale length is set. |
| `Geometry.MatrixToList` | utils/__init__.py:144-149 | The flattened matrix has 16 entries, and entry `4*c + r` is `m[r][c]` (column-major order). |
| `Geometry.ListToMatrix` | utils/__init__.py:144-149 | Unflattening a list of 16 entries gives a 4x4 matrix. |
| `Geometry.MatrixListRoundTrip` | utils/__init__.py:144-149 | Unflattening the flattened matrix gives back the matrix. |
| `Geometry.ListMatrixRoundTrip` | utils/__init__.py:144-149 | Every list of 16 entries is the flattening of its unflattened matrix. |
| `Geometry.CalcBlenderBorder` | utils/__init__.py:193-217 | The result has four entries. In an ORTHO/PERSP viewport the 3D view's border applies, otherwise the scene's. If that border is on, the result is `[min_x, max_x, min_y, max_y]`; if off, `[0, 1, 0, 1]`. |
| `Geometry.BorderInsideFrame` | utils/__init__.py:193-217 | With border settings inside the frame, the chosen border is an ordered sub-rectangle of `[0,1]x[0,1]`. |
| `Geometry.BorderIgnoresViewportOutsideFreeView` | utils/__init__.py:193-217 | Outside an ORTHO/PERSP viewport the result does not depend on the viewport at all. |
| `Geometry.FindActiveUv` | utils/__init__.py:293-297 | Returns the first UV layer marked active for rendering; `None` exactly when no layer is. |
| `Visibility.ZipAnd3` | utils/__init__.py:316 | The zipped flags stop at the shortest list, and each is the AND of the three flags at that index. |
| `Visibility.FoldOrIff` | utils/__init__.py:315-317 | The `\|=` fold is true exactly when its start value or some flag is true. |
| `Visibility.OnVisibleLayer` | utils/__init__.py:314-317 | The layer test holds exactly when, at some index within all three lists, the object, scene and render-layer flags are all set. |
| `Visibility.OnVisibleLayerIff` | utils/__init__.py:314-319 | The fold over zipped flags equals the existential layer condition. |
| `Visibility.IsObjVisible` | utils/__init__.py:300-319 | A dupli is always visible; the camera's clipping plane never is. Any other object is visible iff it shares a layer and its hide flag for the mode (`hide` in the viewport, `hide_render` in final renders) is off. |
| `Visibility.AnyRenderEmitterIff` | utils/__init__.py:327-332 | The early-return loop answers true exactly when some particle system renders its emitter. |
| `Visibility.IsDuplicatorVisible` | utils/__init__.py:322-332 | A duplicator is visible exactly when some particle system renders its emitter. |
| `Visibility.AllEqualToIff` | utils/__init__.py:367-371 | `all(x == first for x in xs)` holds exactly when every element equals `first`. |
| `Visibility.AllElemsEqual` | utils/__init__.py:367-371 | For a non-empty list, true exactly when every two elements are equal. |
| `Visibility.UseObjMotionBlur` | utils/__init__.py:374-384 | True exactly when there is a camera, its motion blur and object blur are on, and the object's own switch is on. |
| `Visibility.UseInstancing` | utils/__init__.py:387-398 | Always true in a viewport render; otherwise equal to the object's motion blur use. |
| `Visibility.MotionBlurImpliesInstancing` | utils/__init__.py:387-398 | An object with motion blur is instanced in every kind of render. |
| `Visibility.NotInstancedMeansFinalWithoutBlur` | utils/__init__.py:387-398 | An object that is not instanced is in a final render and has no motion blur. |
| `ObjectExport.Names` | utils/__init__.py:13 | The names list has one entry per mesh definition: its first component, in order. |
| `ObjectExport.NewExportedObject` | utils/__init__.py:9-15 | The exported object keeps the mesh definitions, and its `luxcore_names` are their first components, in order and of the same length. |
| `ObjectExport.ObjectKeyInjective` | export/blender_object.py:114-119 | For the three fields `_define_luxcore_object` writes (`material`, `shape`, `transformation`), two `scene.objects.<name>.<field>` keys are equal only for the same name and field. |
| `ObjectExport.LastTreeSlot` | export/blender_object.py:93-97 | The last slot whose material has a node tree; `None` exactly when no slot has one. |
| `ObjectExport.ScanPointinessIsLast` | export/blender_object.py:91-97 | The overwriting slot loop ends with the flag of the last slot whose material has a node tree, or its start value if there is none. |
| `ObjectExport.UsePointinessIff` | export/blender_object.py:90-99 | Pointiness is used exactly when the last slot whose material has a node tree contains a pointiness node. |
| `ObjectExport.LaterNodeTreeOverrides` | export/blender_object.py:93-97 | A pointiness node in an earlier material is ignored once a later material's node tree lacks one. |
| `ObjectExport.HandlePointiness` | export/blender_object.py:90-106 | With pointiness, the shape becomes `<shape>_pointiness` and gets `type = pointiness` and `source = <shape>`. Without it, there are no properties and the name is unchanged. |
| `ObjectExport.DefineLuxcoreObject` | export/blender_object.py:99-119 | Sets `.material` and `.shape` (the `Mesh-` shape, or its pointiness shape). Sets `.transformation` exactly when a non-empty transformation is given. With pointiness, the result also holds the pointiness shape's `type = pointiness` and `source = Mesh-<name>`. |
| `ObjectExport.DefineLuxcoreObjectKeys` | export/blender_object.py:99-119 | It writes no other `scene.objects` key. Its only other keys are the two pointiness shape keys, and only when pointiness is used. |
| `ObjectExport.ChooseTransforms` | export/blender_object.py:36-41 | Exactly one of the object and mesh transformations is set. It is the object transformation iff instancing applies. |
| `ObjectExport.PartWarnings` | export/blender_object.py:61-76 | A part logs at most one warning. It logs none exactly when its index names a slot holding a material. It logs "No material attached to slot <i>" when that slot is empty, and "No material defined" when the index is past the slots. |
| `ObjectExport.PartMaterial` | export/blender_object.py:62-76 | A part whose slot holds a material gets that material's conversion. A part whose index is past the slots gets the fallback. |
| `ObjectExport.PartMaterialMatchesWarning` | export/blender_object.py:62-76 | The logged warning tells which material the part gets. No warning means the slot's own material. The empty-slot warning means the conversion of no material. "No material defined" means the fallback. |
| `ObjectExport.ExportParts` | export/blender_object.py:61-79 | The warnings are those of the parts, concatenated in part order. There are none exactly when every part finds a material in its slot. `ExportPartsMaterials` and `ExportPartsShapeKeys` add that every part's material definitions and pointiness shape keys are in the props. |
| `ObjectExport.ExportPartsMaterials` | export/blender_object.py:61-78 | Every key of every part's converted material definitions is in the exported props. |
| `ObjectExport.PartHasShapeKeys` | export/blender_object.py:99-104 | With pointiness, a part's props hold the `type` and `source` keys of the pointiness shape its object points at. |
| `ObjectExport.ExportPartsShapeKeys` | export/blender_object.py:61-79 | With pointiness, every part's pointiness shape `type` and `source` keys are in the exported props, so each `.shape` names a defined shape. |
| `ObjectExport.AllPartWarnings` | export/blender_object.py:61-76 | The list of all parts' warnings, built front to back. `AllPartWarningsSnoc` shows it grows by the last part's warnings, the order in which the loop logs them. |
| `ObjectExport.AllPartWarningsSnoc` | export/blender_object.py:61-76 | Appending a part appends exactly that part's warnings after the earlier ones. |
| `ObjectExport.ExportPartsObjectKeys` | export/blender_object.py:61-79 | Every `scene.objects.*` key produced is the material, shape or transformation key of one of the parts. |
| `ObjectExport.ExportPartsEntries` | export/blender_object.py:61-79 | Each part gets its object entries. The material is the slot's converted material when `material_index < len(material_slots)`, otherwise the fallback. The shape entry is set, and so is the transformation when one is given. |
| `ObjectExport.PartKeepsOtherEntries` | export/blender_object.py:78-79 | A later part with a different name does not disturb an earlier part's object entries. |
| `ObjectExport.Convert` | export/blender_object.py:10-87 | Invisible objects and hidden duplicators export nothing. Lamps go to the lamp converter. Objects without data, or without faces after `to_mesh`, export nothing. A missing cache logs one warning and exports nothing. A cached conversion reuses the cached mesh definitions. The exported names are the definitions' first components. |
| `ObjectExport.ConvertSucceeds` | export/blender_object.py:43-79 | An object that passes every gate is exported. With `update_mesh` and a mesh that has faces, its parts come from `DefineBlenderMesh`. Without `update_mesh` and with a cached export, the cached mesh definitions are reused. |
| `ObjectExport.ConvertDefinesParts` | export/blender_object.py:13-81 | A successful conversion passed all gates. Its parts come from `DefineBlenderMesh`, which gets the mesh transformation only when not instanced, or else from the cache. Every part has its object entries. A transformation key is present iff the object is instanced (viewport, motion blur or dupli). There are no warnings iff every part found a slot material, and the warnings are the parts' warnings in part order. Every part's material definitions are in the props, and with pointiness every part's pointiness shape keys too. `ConvertSucceeds` gives the converse: passing every gate yields a successful conversion. |
| `ObjectExport.InstancedPartsCarryTransform` | export/blender_object.py:33-41 | In the viewport, with object motion blur, or for a duplicate, a fresh mesh is defined without a transformation, and every part carries the object's transformation. |
| `ObjectExport.PlainPartsBakeTransform` | export/blender_object.py:33-41 | In a final render of an object with no motion blur that is not a duplicate, the mesh is defined with the transformation, and no part carries one. |
| `GlossyTranslucent.UpdateUseIor` | nodes/materials/glossytranslucent.py:18-19 | The `IOR` socket's enable flag becomes `use_ior`. Every other input and setting is unchanged. |
| `GlossyTranslucent.UpdateUseIorBf` | nodes/materials/glossytranslucent.py:21-22 | The `BF IOR` socket's enable flag becomes `use_ior_bf`. Every other input and setting is unchanged. |
| `GlossyTranslucent.UpdateUseBackface` | nodes/materials/glossytranslucent.py:24-34 | Only inputs named `BF ...` change. `BF V-Roughness` gets backface and anisotropy, `BF IOR` gets backface and `use_ior_bf`, and the rest get backface. Socket values are kept. |
| `GlossyTranslucent.UpdateUseBackfaceIdempotent` | nodes/materials/glossytranslucent.py:24-34 | Running the backface callback twice equals running it once. |
| `GlossyTranslucent.DrawnSwitches` | nodes/materials/glossytranslucent.py:85-94 | The `use_ior_bf` toggle is offered exactly on double-sided nodes. |
| `GlossyTranslucent.SetUseIorKeepsConsistent` | nodes/materials/glossytranslucent.py:18-19 | Toggling `use_ior` keeps each IOR socket shown exactly when it is exported. |
| `GlossyTranslucent.SetUseBackfaceKeepsConsistent` | nodes/materials/glossytranslucent.py:24-34 | Toggling the backface keeps each IOR socket shown exactly when it is exported. |
| `GlossyTranslucent.SetUseIorBfKeepsConsistent` | nodes/materials/glossytranslucent.py:21-22 | Toggling `use_ior_bf` where the UI offers it keeps the IOR sockets consistent. |
| `GlossyTranslucent.SetUseIorBfSingleSided` | nodes/materials/glossytranslucent.py:21-22 | Setting `use_ior_bf` on a single-sided node enables `BF IOR` even though it is not exported, because the callback ignores the backface switch. |
| `GlossyTranslucent.Init` | nodes/materials/glossytranslucent.py:59-83 | After `init` the `IOR` and `BF IOR` sockets are disabled. The IOR sockets are consistent with the switches, and the node has every input `export` reads. |
| `GlossyTranslucent.Export` | nodes/materials/glossytranslucent.py:96-122 | The keys are exactly the seven front keys, plus `index` iff `use_ior`, plus the four backface keys iff `use_backface`, plus `index_bf` iff both `use_backface` and `use_ior_bf`. |
| `GlossyTranslucent.ExportFrontValues` | nodes/materials/glossytranslucent.py:97-110 | The type is `glossytranslucent` and `multibounce` is copied. `kd`, `kt`, `ks`, `ka`, `d` and `index` each carry their own socket's export. |
| `GlossyTranslucent.ExportBackfaceValues` | nodes/materials/glossytranslucent.py:112-122 | On a double-sided node `multibounce_bf` is copied, and `ks_bf`, `ka_bf`, `d_bf` and `index_bf` each carry their own backface socket's export. |
| `GlossyTranslucent.NoBackfaceIorWhenSingleSided` | nodes/materials/glossytranslucent.py:112-122 | A single-sided node exports no backface key, `index_bf` included. |
| `GlossyTranslucent.ExportedIorMatchesEnabled` | nodes/materials/glossytranslucent.py:109-122 | On a consistent node, `index` and `index_bf` are exported exactly when their sockets are enabled. |
| `Bump.Export` | nodes/textures/bump.py:24-47 | The keys are always `type = scale`, `texture1 = Value` and `texture2`. A linked height produces a helper texture `<name>bump_helper` (`scale`, the height, the world scale), and `texture2` names it. An unlinked height produces no helper, and `texture2` is height times world scale. |
| `Bump.HelperRoundTrip` | nodes/textures/bump.py:35-42 | The helper keys are exactly `scene.textures.<helper>.` plus the helper definitions, which strip back to them. |
| `Bump.HelperIsDefined` | nodes/textures/bump.py:33-44 | For a linked height, `texture2` names a texture the same export defines as a `scale` texture. |
| `Bump.SameWorldscaleBothWays` | nodes/textures/bump.py:29-47 | A plain height's `texture2` is that height times the factor the helper texture applies to a linked height. |
| `Bump.PlainHeightWithoutUnits` | nodes/textures/bump.py:29-47 | Without a unit system a plain height is exported unchanged. |
| `BlenderWood.ParseWoodType` | nodes/textures/blenderwood.py:14-19 | An identifier is a wood type exactly when it is one of the four enum items. |
| `BlenderWood.WoodTypeIdRoundTrip` | nodes/textures/blenderwood.py:14-27 | Each wood type's identifier is an enum item that parses back to it, and only it. |
| `BlenderWood.ParseNoiseBasis2` | nodes/textures/blenderwood.py:21-25 | An identifier is a noise basis exactly when it is `sin`, `saw` or `tri`. |
| `BlenderWood.NoiseBasis2IdRoundTrip` | nodes/textures/blenderwood.py:21-31 | Each noise basis identifier is an enum item that parses back to it, and only it. |
| `BlenderWood.ShowsNoiseType` | nodes/textures/blenderwood.py:46-47 | The noise type control is drawn exactly for `bandnoise` and `ringnoise`. |
| `BlenderWood.Export` | nodes/textures/blenderwood.py:56-74 | Exactly the eleven definition keys are emitted: `type`, the eight settings, `mapping.type` and `mapping.transformation`. |
| `BlenderWood.ExportSettings` | nodes/textures/blenderwood.py:59-68 | The type is `blender_wood`, and every setting is copied unchanged under its own key. |
| `BlenderWood.ExportMapping` | nodes/textures/blenderwood.py:57-71 | The mapping type is copied. The mapping matrix is flattened in column-major order, so entry `4*c + r` is `m[r][c]`. |
| `BlenderWood.ExportRoundTrip` | nodes/textures/blenderwood.py:56-71 | The exported wood type and noise basis parse back to the node's settings, and the exported transformation unflattens to the mapping matrix. |
| `Halt.Humanize` | ui/halt.py:27-28 | `h*3600 + m*60 + s == time`, with `0 <= m < 60` and `0 <= s < 60`. `h == time / 3600` (floor division), and `h >= 0` when the time is non-negative. |
| `Halt.HumanizeHours` | ui/halt.py:27-28 | The two chained `divmod`s recompose the time, and the hours equal one floor division by 3600. |
| `Halt.HumanizedText` | ui/halt.py:27-29 | For a non-negative time the label shows `time / 3600` hours, `time / 60 % 60` minutes and `time % 60` seconds, in decimal with their units. |
| `Halt.HumanizedTextRoundTrip` | ui/halt.py:27-29 | For a non-negative halt time, the label "<h> hours, <m> minutes, <s> seconds" reads back as that time. |
| `Halt.ReadCountOf` | ui/halt.py:29 | A count written in decimal and followed by its unit reads back as that count, and the rest is left unread. |
| `Halt.Poll` | ui/halt.py:9-11 | The panel shows exactly when the render engine is `LUXCORE`. |

## Left out

- Releasing the temporary mesh after `DefineBlenderMesh` (`bpy.data.meshes.remove`) is not modelled. It is a host-side effect with no influence on the exported props or mesh definitions.
- `engine/__init__.py` is not part of this model. It is the wall-clock render loop driving the external session.
- `ui/material.py`, `properties/world.py` and the layout calls of `ui/halt.py` are not part of this model. They are declarative UI and property registration.
- `calc_filmsize_raw`, `calc_filmsize`, `calc_screenwindow` and `calc_aspect` are left out. They are floating-point arithmetic with `round` and `sqrt`.
- `absorption_at_depth_scaled` is left out because it uses `log`.
- `get_scaled_to_world`, the matrix branch of `get_worldscale`, and the `apply_worldscale`/`invert` branches of `matrix_to_list` are left out. They use mathutils. `convert` receives the world-scaled flattened transformation as a parameter.
- `_convert_mesh_to_shapes` and `DefineBlenderMesh` pass raw mesh pointers to the renderer. They are a `Host` function from the object name and mesh transformation to mesh definitions. `find_active_uv` is modelled on its own.
- Lamp conversion (`convert_lamp`) is not part of this model: for a visible lamp object `Convert` returns `ConvertedAsLamp`, the point where the exporter switches to the lamp converter.
- Exceptions thrown inside `convert` by foreign calls are not modelled, because the `Host` functions are total. Only the failed cache assertion reaches the `except` path.
- `material.convert`, `material.fallback`, `utils_node.find_nodes`, a socket's `export`, `make_name`, `Roughness.*`, `add_common_inputs`, `export_common_inputs` and `base_export` live in files outside this model. They are parameters, node-tree flags or socket values. `GlossyTranslucent.Export` stops before the roughness, common-input and base-export steps, and `Init` omits the roughness and common sockets.
- `GlossyTranslucent.Init` assumes a socket is enabled when it is created, because Blender's `add_input` is not part of this model.
- `make_key_from_name`, `get_name_with_lib`, `find_smoke_domain_modifier`, `ExportedLight`, `get_theme` and `get_abspath` are left out. They are outside the exporter core or touch the host and filesystem.
- `print` calls are left out because they have no effect on results. Property-set insertion order is not modelled, since a property set is a map.
- Floats are exact reals, so float rounding and `float()` conversion are not modelled. The bump `height * worldscale` is a real product.
- `Strings.Title` handles ASCII letters only. Python's `title()` also treats other Unicode letters as cased.
- Mesh material indices are natural numbers. `DefineBlenderMesh` does not produce negative indices.
- The `noise_basis` and `noise_type` enums of the wood texture are defined outside this model, so they stay identifier strings. The `min=0` bounds of the float settings are not enforced.
- `halt.time` is modelled as an integer. Its property definition is not part of this model.
- `ObjectExport.ConvertDefinesParts`: assumes material conversion writes no `scene.objects.*` key and that the mesh part names are distinct. Without these, a later part could overwrite an earlier part's entries.
- `ObjectExport.ExportPartsEntries`: has the same two assumptions as `ConvertDefinesParts`.
- `Naming.ObjFromOwnKey`: assumes the objects have distinct addresses, as Blender's datablocks do.
