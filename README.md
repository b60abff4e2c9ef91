# pyramid_viewport: translators and scene synchroniser, in Dafny

This project models the core of a viewport subsystem. Scene entities carry
properties written in a small descriptor language (Pon): strings, 64-bit
integers, floats, booleans, arrays, objects and typed nodes `tag { … }`. The
subsystem does two jobs:

- Its translators turn such descriptors into renderable resources: meshes,
  textures and shader sources.
- Its synchroniser keeps a set of render nodes and a camera in step with the
  scene. It works through content-addressed caches, so each distinct
  descriptor is built once and then shared.

The model has four modules:

- `Descriptor` (`descriptor.dfy`):
  - the `Pon` datatype and the translation errors;
  - a `Result` type used with `:-`;
  - Rust's `as` narrowing casts, written out as remainders (`U32`, `U8`, `Usize`);
  - the typed accessors and field accessors every translator is built from.
- `PonToResource` (`pon_to_resource.dfy`): the translators `pon_to_layout`,
  `pon_to_mesh` (`static_mesh`, `grid_mesh`), `pon_to_texture`
  (`static_texture`, `texture_from_file` with the `.dhm` height-map reader) and
  `pon_to_shader` (`shader_program`, with `static_shader` / `shader_from_file`
  stages).
  - The layout loop is a method, `BuildLayout`, proved equal to the reference
    function `LayoutOf`.
  - The nested `.dhm` loops, the methods `ReadDhm` and `ReadRow`, are proved
    equal to the reference decoder `DhmDecode`.
  - The match and `try!` chains are functions with contracts and lemmas.
- `Legacy` (`resources.dfy`): the older `propnode_to_mesh` and
  `propnode_to_texture`. They apply the same `static_mesh` and `static_texture`
  rules and report missing texture fields by name. Lemmas prove that the legacy
  `static_mesh` gives the same result as `pon_to_mesh`, and that the legacy
  `static_texture` gives the same image or error as `pon_to_texture` on every
  input. The legacy translators have no `grid_mesh`, and their
  `texture_from_file` has no `.dhm` branch: a `.dhm` file is opened as an image.
- `Viewport` (`viewport.dfy`) holds the synchroniser of `src/lib.rs` as classes:
  - `Cache` is a lookup-or-insert map from descriptors to handles. It keeps a
    ghost log of the keys looked up.
  - `Renderer` holds a node map and a camera. It keeps a ghost log of the
    calls made on it.
  - `ViewportSubSystem` holds three caches: shader programs, vertex arrays and
    textures. Its constructor pre-registers the `"basic"` shader.
    `RendererAdd`, `RendererRemove` and `OnPropertyValueChange` mutate the
    renderer and the caches.

  Their contracts state the following:
  - which cache keys are looked up;
  - which renderer calls are made, and in what order;
  - how the node map and the camera change.

  The pure functions `StructuralEntities`, `RebuildOps`, `TransformOps` and
  `CameraAfter` specify the batch handling. The lemmas prove what the batch
  handling promises about these functions.

The model shows collaborators it cannot see as function-valued parameters.
These include file reads, image decoding, descriptor printing, matrix and
uniform translation, and grid generation. The points where the source panics
are preconditions. These are `.unwrap()`, indexing into a short layout entry,
a file name without an extension, and a truncated `.dhm` file.

## Model

| member | source | states |
|---|---|---|
| PonToResource.LayoutOfCorrect | src/pon_to_resource.rs:33-40 | the layout translates exactly when every entry is an array whose first element is a string and whose second is an integer; it then has one attribute per entry, in input order, named by entry[0] with count entry[1] as usize; otherwise the error is that of the first malformed entry |
| PonToResource.LayoutStopsAtFirstError | src/pon_to_resource.rs:35-37 | the loop stops at the first malformed entry with that entry's error; an entry that is not an array is a type mismatch naming its kind |
| PonToResource.BuildLayout | src/pon_to_resource.rs:33-40 | the `for`/`push` loop computes exactly the reference layout `LayoutOf` |
| PonToResource.PonToMesh | src/pon_to_resource.rs:42-46 | a descriptor that is not typed is a type mismatch; a tag other than `static_mesh` / `grid_mesh` gives `UnrecognizedType` carrying exactly that tag (line 70) |
| PonToResource.StaticMeshCorrect | src/pon_to_resource.rs:47-57 | `static_mesh` succeeds if and only if `layout`, `vertices` and `indices` are present and well typed; the layout is one pair per entry, the vertex data equals `vertices` element for element, and element i is `indices[i]` mod 2^32 |
| PonToResource.StaticMeshFieldErrors | src/pon_to_resource.rs:48-51 | a missing `layout`, `vertices` or `indices` is reported as `NoSuchField` of that name, in that order; a non-array `layout` is a type mismatch |
| PonToResource.GridMeshCorrect | src/pon_to_resource.rs:59-68 | a missing or non-array `layout` falls back to the library's position/texcoord/normal layout and the grid gets both vertex counts mod 2^32; an array layout whose entries are all pairs is translated by `LayoutOf` and the grid gets that layout and both counts mod 2^32; an array layout with a malformed entry fails; either vertex count missing or not an integer fails |
| PonToResource.LastIndex | src/pon_to_resource.rs:97 | the result is -1 or an index of `c`, with no `c` after it |
| PonToResource.FileName | src/pon_to_resource.rs:94-97 | the file name is a suffix of the path containing no `/` |
| PonToResource.FileNameAfterSeparator | src/pon_to_resource.rs:94-97 | a file name shorter than its path is preceded by a `/`, so it is the whole last component |
| PonToResource.Extension | src/pon_to_resource.rs:97 | an extension, when there is one, contains no `.` or `/`, and the file name ends in `.` followed by it, with at least one character before the dot |
| PonToResource.ExtensionFound | src/pon_to_resource.rs:97 | a file name other than `..` with a dot after its first character has an extension |
| PonToResource.DhmRowMajor | src/pon_to_resource.rs:101-111 | width and height are the first two little-endian words; the data has width*height words and the value at column x of row y is the word at byte 8 + 4(y*width + x) |
| PonToResource.ReadRow | src/pon_to_resource.rs:107-109 | one pass of the inner loop appends one row of `width` words, each the little-endian word at the cursor, and advances the cursor past them |
| PonToResource.ReadDhm | src/pon_to_resource.rs:101-111 | the nested `for y` / `for x` cursor loops produce exactly the reference decoding `DhmDecode` |
| PonToResource.ImageFromPixels | src/pon_to_resource.rs:80-90 | on success the image is width mod 2^32 by height mod 2^32 and byte k is pixel k mod 256; for fewer than 2^32 values it succeeds exactly when width*height*4 equals the pixel count; a mismatch below 2^32 reports both numbers |
| PonToResource.WrappedSizeCheck | src/pon_to_resource.rs:84-87 | the wrapped `u32` comparison followed by the image library's length check accepts exactly equal sizes when the pixel count fits in 32 bits |
| PonToResource.PonToTexture | src/pon_to_resource.rs:74-121 | non-typed is a mismatch; an unknown tag gives `UnrecognizedType(tag)`; non-string `texture_from_file` data is `MismatchType("string", kind)`; a `.dhm` file is decoded by `DhmDecode`; any other file gives the opened image, or `ImageLoadFailed(filename, cause)` with the decoder's cause |
| PonToResource.StaticTextureCorrect | src/pon_to_resource.rs:79-91 | with well-typed fields (fewer than 2^32 pixels), `static_texture` succeeds if and only if width*height*4 equals the pixel count; the image then has those dimensions over the pixels mod 256; a mismatch error carries both numbers |
| PonToResource.StaticTextureMissingField | src/pon_to_resource.rs:80-83 | a missing `pixels`, `width` or `height` is reported as `NoSuchField` of that name, in that order |
| PonToResource.PonToShader | src/pon_to_resource.rs:125-156 | non-typed is a mismatch; a tag other than `shader_program` gives `UnrecognizedType(tag)`; on success both stages exist and the debug names are the printed stage descriptors |
| PonToResource.ShaderProgramCorrect | src/pon_to_resource.rs:130-152 | a program translates if and only if both stages are `static_shader` or `shader_from_file` over a string; a `static_shader` source is exactly its inline string, a `shader_from_file` source is the text of the named file |
| PonToResource.ShaderStageErrors | src/pon_to_resource.rs:134-145 | a stage tag other than the two known gives `UnrecognizedType(nested tag)`; the vertex stage is validated before the fragment stage |
| Legacy.PropnodeToMesh | src/resources.rs:17-36 | a node that is not a transform is a type mismatch; any transform other than `static_mesh` gives `UnrecognizedPropTransform(tag)` (line 79) |
| Legacy.PropnodeStaticMeshCorrect | src/resources.rs:21-35 | the legacy `static_mesh` gives the same result as `pon_to_mesh`; it succeeds if and only if the fields are well typed, with the layout as (name, count) pairs in input order, `vertices` as the vertex data and `indices` mod 2^32 as the element data |
| Legacy.PropnodeToTexture | src/resources.rs:83-124 | a node that is not a transform is a type mismatch; an unknown transform gives `UnrecognizedPropTransform(tag)`; `static_texture` needs an object argument (line 88); `texture_from_file` needs a string argument, failing with the accessor error before any file access, and otherwise returns the opened image or a load error naming the file |
| Legacy.PropnodeTextureMissingField | src/resources.rs:89-101 | a missing `pixels`, `width` or `height` gives `NoSuchField` naming that field, checked in that order |
| Legacy.PropnodeStaticTextureCorrect | src/resources.rs:102-108 | the legacy `static_texture` fails unless width*height*4 equals the pixel count, and otherwise returns an image of those dimensions over the pixels mod 256, the same image `pon_to_texture` gives |
| Legacy.PropnodeStaticTextureAgrees | src/resources.rs:87-108 | on every input the legacy `static_texture` gives the image `pon_to_texture` gives, or the same error |
| Viewport.Cache.Get | src/lib.rs:112-116 | the handle is the one cached under the key; a hit changes nothing, a miss adds exactly that key with a handle no other key has; every earlier entry is kept; the key is appended to the lookup log |
| Viewport.Cache.Set | src/lib.rs:83 | registers the key with a fresh handle, leaving the other entries as they were |
| Viewport.Cache.Injective | src/lib.rs:112-116 | two distinct descriptors never share a cached handle |
| Viewport.Renderer.AddNode | src/lib.rs:138 | the node is stored under its id; the call is logged |
| Viewport.Renderer.RemoveNode | src/lib.rs:141 | the entity's node, if any, is dropped; the call is logged |
| Viewport.Renderer.SetTransform | src/lib.rs:166 | an existing node gets the new transform and nothing else changes; the call is logged |
| Viewport.ViewportSubSystem.constructor | src/lib.rs:60-86 | empty renderer (identity camera) and caches, with `String("basic")` registered in the shader-program cache |
| Viewport.ViewportSubSystem.RendererAdd | src/lib.rs:91-139 | without a mesh, or without both `textures` and `diffuse`, nothing changes and no cache is looked up; otherwise exactly one node for the entity is added, with id = entity id, the shader cached under the `shader` property (default `String("basic")`, already registered), the vertex array cached under `Array[shader key, mesh key]`, one cached texture per slot of `textures` (default `{diffuse: …}`), and identity / empty / false defaults for transform, uniforms and alpha; exactly those keys are looked up |
| Viewport.ViewportSubSystem.BindTextures | src/lib.rs:114-118 | one (slot name, texture) pair per slot, names distinct, each the cached texture of that slot's descriptor, looked up once each |
| Viewport.OnePairPerSlot | src/lib.rs:114-118 | the node holds exactly as many texture pairs as there are slots |
| Viewport.ViewportSubSystem.RendererRemove | src/lib.rs:140-142 | the entity's node is removed and nothing else changes |
| Viewport.ViewportSubSystem.OnPropertyValueChange | src/lib.rs:147-175 | each structurally changed entity is rebuilt once, so it has a node exactly when renderable, built from its current properties; other entities keep their nodes, patched with the new transform where `transformed` changed; the renderer sees all rebuild calls, then the transform calls in change order; the camera is the result of the camera changes in order; a batch without structural changes does no cache lookup |
| Viewport.ViewportSubSystem.Rebuild | src/lib.rs:157-160 | every entity of the set is removed and re-added once, in some order; the other nodes are untouched |
| Viewport.ViewportSubSystem.RebuildOne | src/lib.rs:158-159 | a remove followed by an add for one entity keeps every node already rebuilt consistent with the grown caches |
| Viewport.ViewportSubSystem.PatchTransforms | src/lib.rs:161-167 | only `set_transform` calls, one per `transformed` change in order; the node set is unchanged and each existing node carries its re-read transform (identity if absent) |
| Viewport.ViewportSubSystem.ApplyCameras | src/lib.rs:168-174 | each `camera` change overwrites the camera with the re-read matrix (identity if absent); nodes untouched |
| Viewport.StructuralEntitiesCorrect | src/lib.rs:149-156 | the rebuild set is exactly the entities with a `mesh`, `diffuse` or `alpha` change, deduplicated; changes to any other key rebuild nothing |
| Viewport.RebuildOpsRemoveCount | src/lib.rs:157-160 | in the rebuild calls each rebuilt entity is removed exactly once and other entities never |
| Viewport.RebuildOpsAddCount | src/lib.rs:157-160 | in the rebuild calls each rebuilt entity is added exactly once if renderable and never otherwise; entities outside the set are never added |
| Viewport.RebuildOpsNoTransform | src/lib.rs:157-160 | the rebuild phase makes no `set_transform` call |
| Viewport.TransformOpsCorrect | src/lib.rs:161-167 | the transform phase makes only `set_transform` calls, and sets an entity's transform exactly when it had a `transformed` change |
| Viewport.LastCameraWins | src/lib.rs:168-174 | the last `camera` change of the batch decides the camera |
| Viewport.NoCameraChange | src/lib.rs:168-174 | a batch without a `camera` change leaves the camera as it was |

## Left out

- Files, images and the graphics backend are not modelled. `string_from_file`, `File::open`/`read_to_end`, `image::open`/`to_rgba` and `Pon::to_string` become parameters: `Assets.readText`, `Assets.readBytes`, `Assets.openImage` and `Assets.debugName`. So do grid generation and the default mesh layout (`MeshLibrary`), and the `Matrix4` and `ShaderUniforms` translations (`Translators`). The files are looked up by the descriptor's file name. The join with the root path is not modelled.
- Panics are preconditions, not results. These are `.unwrap()`, `p[0]` / `p[1]` on a short layout entry, a file name without an extension, a truncated `.dhm` file, a property whose translation fails in `renderer_add`, and a transform or camera change whose translation fails. The predicates are `LayoutPanicFree`, `MeshPanicFree`, `FileTexturePanicFree`, `AddPanicFree`, `TransformsDefined` and `CamerasDefined`. `string_from_file` panics on a missing file; here it is total.
- Floating point is not interpreted. A float is kept as its raw 32-bit word. The model accepts only float elements in a float array, so integer-to-float promotion by the descriptor crate is not modelled.
- The descriptor crate (`pyramid`) is not part of this model. The accessor error payloads are this model's choice:
  - a missing field gives `NoSuchField(name)`;
  - a wrong kind gives `MismatchType(expected, kind)`;
  - a non-object gives `MismatchType("object", kind)`.

  The free-text `Generic` messages become the structured variants `PixelCountMismatch`, `ImageCreateFailed` and `ImageLoadFailed`.
- PonToResource.ImageFromPixels: the product `width * height * 4` wraps in `u32` as a release build does. A debug build panics on the overflow instead, and that panic is not modelled. `RgbaImage::from_raw` is taken to accept exactly when the length is at least the true product. The "succeeds exactly when" part of the contract is stated only for fewer than 2^32 pixel values, and the same bound is a precondition of `StaticTextureCorrect` and `PropnodeStaticTextureCorrect`.
- PonToResource.Extension: `Path::extension` is modelled on `/`-separated strings only. Path normalisation and `OsStr` conversion are not modelled.
- `renderer.rs` and `gl_resources.rs` are not part of this model. What is modelled of each:
  - A cache hands out a fresh handle on a miss and stores it. The resource built on a miss (compiling a shader, uploading a mesh or a texture) is not modelled, nor what happens when that build fails.
  - The renderer is a node map plus a camera. Drawing is not modelled.
- Viewport.Renderer.SetTransform: `renderer.rs` is not part of this model; `set_transform` on an entity without a node is assumed to change nothing. `Viewport.ViewportSubSystem.OnPropertyValueChange`'s clause that an entity which is not rebuilt keeps its node-set membership rests on this assumption.
- Viewport.Renderer.RemoveNode: `remove_node` on an entity without a node is likewise assumed to change nothing. Every first build of an entity depends on this, because `renderer_add` is always preceded by `renderer_remove`.
- Iteration order is not pinned down. The `HashSet` of rebuilt entities and the `HashMap` of texture slots are visited in whatever order a `:|` choice picks. `OnPropertyValueChange` returns the visiting order as a ghost value.
- The GL shader compilation in `new` is not modelled; only its registration under `String("basic")` is. Also not modelled: window creation, `update`, the FPS counter, `println!` diagnostics, the unused `default_textures` field, and the commented-out `mesh_from_file`.
- A legacy property node is modelled with the same `Pon` datatype. A transform is a typed node, and its argument is the node's data.
