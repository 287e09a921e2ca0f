# blender-xray core, modelled in Dafny

This project models three pieces of the blender-xray add-on, which reads and writes the
file formats of the X-Ray engine.

- **The `.object` importer** (`fmt_object_imp.py`) walks the chunk tree of an object file:
  - the root, then each object (MAIN);
  - inside an object: its meshes, surfaces, bones, bone groups and properties;
  - inside a mesh: vertices, faces, smoothing groups, materials and vertex maps.

  The host (Blender) objects it builds are plain records here:
  - a mesh builder with a face list of `Option<Face>` slots, an edge table, seams, UV
    layers and weights;
  - bones;
  - a library of materials, textures and cached images.

  The record and chunk loops are imperative methods over a packed-field reader. Each method
  is proved equal to a specification function, and the properties are lemmas about those
  functions.
- **The OGF exporter's geometry logic** (`fmt_ogf_exp.py`):
  - `max_two`;
  - the corner deduplication loop;
  - the maximum-influence count;
  - the vertex and index chunks with their weight packing;
  - `calculate_bbox`.
- **The `.skls` browser** (`skls_browser.py`):
  - the motion-container index, built over a byte buffer with a cursor;
  - the clip list;
  - random-access selection of one clip.

Modules:

| module | file | what it holds |
|---|---|---|
| `Util` | util.dfy | `Option`, `Result`, `Outcome`, `Distinct` |
| `Packed` | packed.dfy | typed packed fields, the writer, and the reader with its cursor (`getf`/`gets`) |
| `Chunks` | chunks.dfy | chunk ids, chunk data, warnings, import errors, the exact version check |
| `ObjectMesh` | object_mesh.dfy | `_import_mesh` as specification functions, and its properties |
| `MeshImport` | mesh_import.dfy | `_import_mesh` as a builder class whose handlers are proved against `ObjectMesh` |
| `ObjectBone` | object_bone.dfy | `_import_bone` as specification functions, and its properties |
| `ObjectMain` | object_main.dfy | the image cache, `_import_main` and `_import` as specification functions, and their properties |
| `ObjectImport` | object_import.dfy | `_import_bone`, `ImportContext`, `_import_main` and `_import` as methods proved against `ObjectBone`/`ObjectMain` |
| `Ogf` | ogf.dfy | the OGF exporter |
| `Skls` | skls.dfy | the `.skls` index and browser |

Modelling choices:

- **Chunk payloads.** A chunk holds either a sequence of typed fields (`U8`, `U16`, `U32`,
  `F32`, `Str`) or a list of sub-chunks. Reading past the end (`Truncated`) is the
  `struct.error` the reader raises. Reading a field of another format (`Mismatch`) is how
  the model treats a file whose layout disagrees with the reader: the Python reader does
  not raise there, but reinterprets the bytes that come next and reads on, which the typed
  fields cannot express.
- **The `.skls` buffer.** It is a sequence of bytes, because its properties are about byte
  offsets.
- **Errors.** An exception ends the whole import. It is an `Error` value, and the model
  does not state what was built before it.
- **The motion skip calculator.** `_skip_motion_rest` is a function parameter.
- **The host's path separator.** `os.path.sep` is a field of `Host`.

## Model

| member | source | states |
|---|---|---|
| Packed.PackU16 | io_scene_xray/fmt_ogf_exp.py:127 | `putf('H', x)` succeeds exactly when `0 <= x < 2^16`, and then writes that value |
| Packed.PackU32 | io_scene_xray/fmt_ogf_exp.py:148 | `putf('I', x)` succeeds exactly when `0 <= x < 2^32`, and then writes that value |
| Packed.Writer.PutU16 | io_scene_xray/fmt_ogf_exp.py:127 | appends one u16 field, or fails with the range error and leaves the fields as they were |
| Packed.Writer.PutU32 | io_scene_xray/fmt_ogf_exp.py:148 | appends one u32 field, or fails with the range error and leaves the fields as they were |
| Packed.Writer.PutF32x3 | io_scene_xray/fmt_ogf_exp.py:108-111 | `putf('fff', *v)` appends the three components in order |
| Packed.GetAt | io_scene_xray/fmt_object_imp.py:49 | one `getf` succeeds exactly when a field of that format is at the cursor, and returns it |
| Packed.GetManyAt | io_scene_xray/fmt_object_imp.py:92 | `getf(str(n) + f)` succeeds exactly when the next `n` fields all have format `f`, and returns them in order |
| Packed.GroupsShape | io_scene_xray/fmt_object_imp.py:189-201 | a run of `getf` calls returns one group per call, each with that call's count and format |
| Packed.Reader.Get | io_scene_xray/fmt_object_imp.py:49 | the reader returns `GetAt` at its cursor, and advances by one only on success |
| Packed.Reader.GetMany | io_scene_xray/fmt_object_imp.py:92 | the reader returns `GetManyAt` at its cursor, and advances by `n` only on success |
| Packed.GroupsWidth | io_scene_xray/fmt_object_imp.py:189-201 | a run of `getf` calls takes exactly the layout's width in fields |
| Packed.Reader.GetLayout | io_scene_xray/fmt_object_imp.py:189-201 | the calls of a layout in order; on success the cursor moves past exactly the fields read |
| Packed.GetManyFirstFailure | io_scene_xray/fmt_object_imp.py:92 | a batch read fails when any one of its fields does not fit |
| Chunks.Next | io_scene_xray/fmt_object_imp.py:158 | `cr.next(id)` succeeds exactly when the first chunk has that id and holds fields |
| Chunks.CheckVersion | io_scene_xray/fmt_object_imp.py:37-39 | a passed version check implies the first chunk is the version chunk |
| Chunks.CheckVersionExact | io_scene_xray/fmt_object_imp.py:37-39 | the version is accepted exactly when the first chunk is the version chunk holding `U16(expected)`; any other u16 fails with that value |
| ObjectMesh.VertsAppend | io_scene_xray/fmt_object_imp.py:47-50 | VERTS appends exactly the declared count of vertices, in file order, each of the three floats read |
| ObjectMesh.BuildFace | io_scene_xray/fmt_object_imp.py:55-58 | an index naming no vertex raises; a repeated vertex or an existing face gives an empty slot; otherwise the face over these vertices |
| ObjectMesh.FacesKeepSlots | io_scene_xray/fmt_object_imp.py:53-58 | FACES appends one slot per declared face; slot `i` holds nothing or the face over record `i`'s vertices |
| ObjectMesh.FacesNeverAbort | io_scene_xray/fmt_object_imp.py:55-58 | a face that cannot be built never stops the chunk: with readable records and valid indices it always succeeds |
| ObjectMesh.FaceEdges | io_scene_xray/fmt_object_imp.py:75 | a face has one edge per loop, from each vertex to the next |
| ObjectMesh.MarkEdgesEffect | io_scene_xray/fmt_object_imp.py:75-82 | after a face of group `sg`, its edges record `sg`; other records stay; the new seams are exactly its edges recorded with another group; seams are kept |
| ObjectMesh.SmoothFails | io_scene_xray/fmt_object_imp.py:69-70 | the SG loop fails exactly when it lists more groups than there are face slots |
| ObjectMesh.SmoothFaces | io_scene_xray/fmt_object_imp.py:69-74 | empty slots are skipped and keep their content; every listed face becomes smooth and nothing else about it changes |
| ObjectMesh.SmoothKeepsSeams | io_scene_xray/fmt_object_imp.py:79-82 | a seam, once set, is never cleared |
| ObjectMesh.SameGroupNoSeam | io_scene_xray/fmt_object_imp.py:76-82 | faces of one group never make their shared edge a seam |
| ObjectMesh.AssignEffect | io_scene_xray/fmt_object_imp.py:92-97 | assignment fails exactly when an index names no slot; listed faces get `midx`; empty and unlisted slots do not change |
| ObjectMesh.MaterialRecordEffect | io_scene_xray/fmt_object_imp.py:86-97 | one SFACE record appends its name and gives faces only the index it had before the append |
| ObjectMesh.MaterialsEffect | io_scene_xray/fmt_object_imp.py:85-97 | SFACE adds one material per record and keeps the number of face slots; every face's material is a listed index or the one it had |
| ObjectMesh.VmapTypeIsLowBits | io_scene_xray/fmt_object_imp.py:106 | the vertex-map type is the two low bits of the flags byte |
| ObjectMesh.UVPairsLayout | io_scene_xray/fmt_object_imp.py:112 | the UV pairs are read exactly when the next `2n` fields are floats; pair `k` is fields `2k` and `2k+1` |
| ObjectMesh.Target | io_scene_xray/fmt_object_imp.py:117-124 | the disconnected case writes the first loop of the named face that sits at the named vertex; an empty slot has none |
| ObjectMesh.DisconFrame | io_scene_xray/fmt_object_imp.py:116-124 | in a disconnected UV map, a loop no entry targets keeps its UV |
| ObjectMesh.DisconLastWins | io_scene_xray/fmt_object_imp.py:116-124 | in a disconnected UV map, a targeted loop holds `(u, 1 - v)` of the last entry that targets it |
| ObjectMesh.SetLoopsEffect | io_scene_xray/fmt_object_imp.py:127-128 | every loop of the set gets the UV, and no other loop changes |
| ObjectMesh.ConnFails | io_scene_xray/fmt_object_imp.py:127 | a connected UV map fails exactly when an entry names no vertex |
| ObjectMesh.ConnFrame | io_scene_xray/fmt_object_imp.py:126-128 | in a connected UV map, a loop whose vertex no entry names keeps its UV |
| ObjectMesh.ConnLastWins | io_scene_xray/fmt_object_imp.py:126-128 | in a connected UV map, every loop of a vertex holds `(u, 1 - v)` of the last entry for that vertex |
| ObjectMesh.LoopVertex | io_scene_xray/fmt_object_imp.py:127 | a link loop of vertex `vi` is a corner at `vi` |
| ObjectMesh.WeighFrame | io_scene_xray/fmt_object_imp.py:138-139 | weights of other groups, or of vertices no entry names, do not change |
| ObjectMesh.WeighLastWins | io_scene_xray/fmt_object_imp.py:138-139 | `weight[vi][vgi]` is the last weight listed for `vi` |
| ObjectMesh.WeighFails | io_scene_xray/fmt_object_imp.py:139 | a weight map fails exactly when an entry names no vertex |
| ObjectMesh.VmapDispatch | io_scene_xray/fmt_object_imp.py:106-141 | a type-0 map changes only the UV layers; a type-1 map appends its name to the vertex groups; any other type raises "unknown vmap type" once the header has been read |
| ObjectMesh.DisconnectedWeightsIgnored | io_scene_xray/fmt_object_imp.py:135-136 | a disconnected weight map reads its face indices and adds its group, but changes no weight |
| ObjectMesh.MeshUnknownContinues | io_scene_xray/fmt_object_imp.py:148-149 | an unknown mesh chunk only adds a warning, and the loop goes on with the same state |
| ObjectMesh.MeshVersionExact | io_scene_xray/fmt_object_imp.py:37-39 | a mesh is imported only with version 0x11; any other u16 is refused with that value |
| MeshImport.MeshBuilder.constructor | io_scene_xray/fmt_object_imp.py:40-45 | the builder starts as the empty mesh |
| MeshImport.MeshBuilder.ReadChunk | io_scene_xray/fmt_object_imp.py:46-149 | the if/elif dispatch ends in the state and warnings `MeshChunk` gives, or raises its error |
| MeshImport.MeshBuilder.ReadPacked | io_scene_xray/fmt_object_imp.py:47-149 | each known tag with a packed payload is read as `PackedChunk` says: new state on success, that tag's error otherwise |
| MeshImport.MeshBuilder.ReadVerts | io_scene_xray/fmt_object_imp.py:47-50 | follows `VertsChunk` |
| MeshImport.MeshBuilder.ReadFaces | io_scene_xray/fmt_object_imp.py:51-59 | follows `FacesChunk` |
| MeshImport.MeshBuilder.ReadName | io_scene_xray/fmt_object_imp.py:60-62 | follows `NameChunk` |
| MeshImport.MeshBuilder.ReadSmoothing | io_scene_xray/fmt_object_imp.py:63-82 | the `enumerate` loop with its `edict` follows `SmoothChunk` |
| MeshImport.MeshBuilder.MarkSmooth | io_scene_xray/fmt_object_imp.py:69-82 | the loop over the groups ends with the face slots and seams `SmoothFrom` gives from an empty `edict`, or with its `NoFace` error |
| MeshImport.MeshBuilder.SmoothSlot | io_scene_xray/fmt_object_imp.py:70-82 | one slot: what the loop from it gives equals what the loop from the next slot gives on the new slots, seams and `edict` |
| MeshImport.MeshBuilder.MarkFace | io_scene_xray/fmt_object_imp.py:75-82 | the edge loop of one face yields the table and seams `MarkEdges` gives |
| MeshImport.MeshBuilder.ReadMaterials | io_scene_xray/fmt_object_imp.py:83-97 | follows `MaterialsChunk` |
| MeshImport.MeshBuilder.ReadMaterialList | io_scene_xray/fmt_object_imp.py:85-97 | the `n` records from the cursor end with the slots and materials `MaterialsFrom` gives, or with its error |
| MeshImport.MeshBuilder.ReadMaterial | io_scene_xray/fmt_object_imp.py:86-97 | one SFACE record follows `MaterialRecord`, cursor included |
| MeshImport.MeshBuilder.AssignMaterial | io_scene_xray/fmt_object_imp.py:92-97 | the face loop follows `AssignFrom` |
| MeshImport.MeshBuilder.ReadVmaps | io_scene_xray/fmt_object_imp.py:100-141 | follows `VmapsChunk` |
| MeshImport.MeshBuilder.ReadNextVmap | io_scene_xray/fmt_object_imp.py:102-141 | one pass of the record loop: the record read fails with the error of the remaining records, or leaves the state and cursor from which the other `m - 1` records give the same outcome |
| MeshImport.MeshBuilder.ReadVmap | io_scene_xray/fmt_object_imp.py:103-141 | one VMAPS2 record follows `VmapRecord`, cursor included |
| MeshImport.MeshBuilder.ReadUVMap | io_scene_xray/fmt_object_imp.py:109-128 | a UV map body follows `UVMap` |
| MeshImport.MeshBuilder.ReadWeightMap | io_scene_xray/fmt_object_imp.py:130-139 | a weight map body follows `WeightMap` |
| MeshImport.MeshBuilder.SetDisconUVs | io_scene_xray/fmt_object_imp.py:116-124 | the `zip` loop follows `DisconUVs` |
| MeshImport.MeshBuilder.SetConnUVs | io_scene_xray/fmt_object_imp.py:126-128 | the `zip` loop follows `ConnUVs` |
| MeshImport.MeshBuilder.SetWeights | io_scene_xray/fmt_object_imp.py:138-139 | the `zip` loop follows `Weigh` |
| MeshImport.MeshBuilder.ReadFlags | io_scene_xray/fmt_object_imp.py:142-143 | follows `FlagsChunk` |
| MeshImport.MeshBuilder.ReadOptions | io_scene_xray/fmt_object_imp.py:146-147 | follows `OptionsChunk` |
| MeshImport.ImportMesh | io_scene_xray/fmt_object_imp.py:36-151 | `_import_mesh` returns exactly `ImportMeshSpec`: version check, then every chunk in order |
| MeshImport.SetLinkLoops | io_scene_xray/fmt_object_imp.py:127-128 | the loop over `link_loops` sets exactly the loops of the vertex, in whatever order they come |
| MeshImport.ReadPairs | io_scene_xray/fmt_object_imp.py:112 | the list comprehension of `getf('ff')` returns `UVPairsFrom` and moves the cursor past the pairs |
| ObjectBone.BoneChunksKeep | io_scene_xray/fmt_object_imp.py:182-223 | the bone's chunk loop keeps its name, parent, vertex map and bind pose; it only appends unknown-chunk and DEF-mismatch warnings |
| ObjectBone.BoneUnknownContinues | io_scene_xray/fmt_object_imp.py:222-223 | an unknown bone chunk only adds a warning, and the loop goes on |
| ObjectBone.BoneVersionExact | io_scene_xray/fmt_object_imp.py:155-157 | a bone is imported only with version 0x2; any other u16 is refused with that value |
| ObjectBone.BoneHeaderFields | io_scene_xray/fmt_object_imp.py:158-172 | the new bone's name, parent and vertex map are the three DEF strings; its pose is the BIND_POSE read; its parent is empty or an existing bone |
| ObjectBone.BoneHeaderWarning | io_scene_xray/fmt_object_imp.py:162-163 | the start of the bone reports a mismatch exactly when name != vmap |
| ObjectBone.ImportBoneIdentity | io_scene_xray/fmt_object_imp.py:158-172 | an imported bone has the DEF chunk's name, parent and vmap and the BIND_POSE values; its parent is empty or a bone imported earlier |
| ObjectBone.ImportBoneVmapWarning | io_scene_xray/fmt_object_imp.py:162-163 | name != vmap makes the mismatch the first warning; otherwise no such warning is given |
| ObjectMain.NormalizePath | io_scene_xray/fmt_object_imp.py:20 | normalising keeps the length of the path |
| ObjectMain.CacheKeepsCoherent | io_scene_xray/fmt_object_imp.py:19-24 | a lookup keeps the cache coherent: each key is loaded once, from `gamedata/textures/<key>.dds`; the result is that key's image |
| ObjectMain.CacheRepeat | io_scene_xray/fmt_object_imp.py:21-24 | two paths that normalise alike share one entry: the second call returns the first one's image and changes nothing |
| ObjectMain.NormalizeCanonical | io_scene_xray/fmt_object_imp.py:20 | normalising is idempotent; it leaves no ASCII capital and no backslash |
| ObjectMain.NormalizeIgnoresCase | io_scene_xray/fmt_object_imp.py:20 | paths that differ only in ASCII case and in backslash-vs-separator normalise alike |
| ObjectMain.AddMaterials | io_scene_xray/fmt_object_imp.py:87-89 | `materials.get(n)` or `new(n)`: every name then exists, existing materials are kept, new ones are fresh |
| ObjectMain.SurfaceSkipsUnknown | io_scene_xray/fmt_object_imp.py:257-259 | a surface whose material does not exist changes nothing |
| ObjectMain.SurfaceEffect | io_scene_xray/fmt_object_imp.py:256-273 | a surface sets its material's four settings and adds one slot when it names a texture; a new texture's image comes through the cache; an existing texture leaves the cache alone |
| ObjectMain.FindBone | io_scene_xray/fmt_object_imp.py:343 | `pose.bones[bn]` finds a bone of that name exactly when one exists, and it is the first bone of that name |
| ObjectMain.MembersNames | io_scene_xray/fmt_object_imp.py:341-343 | a member list is read only when it holds that many strings and every one names a bone |
| ObjectMain.MembersEffect | io_scene_xray/fmt_object_imp.py:341-343 | the new grouping's keys are exactly the old keys and the listed bones; a listed bone is in `gi`, and every bone the list does not name keeps its old group |
| ObjectMain.MembersJoin | io_scene_xray/fmt_object_imp.py:341-343 | every bone the list names ends in the group |
| ObjectMain.PolygonImagesExact | io_scene_xray/fmt_object_imp.py:351-353 | the polygons all take their images exactly when each has a material index within the mesh's materials and that material has an active texture; otherwise the first polygon without one raises its error |
| ObjectMain.ImagesExact | io_scene_xray/fmt_object_imp.py:350-353 | the closing loop passes exactly when every mesh has a UV layer and images for all its polygons |
| ObjectMain.ImportedMeshesHaveImages | io_scene_xray/fmt_object_imp.py:226-353 | every mesh of an imported object has a UV layer, and every polygon's material has an active texture |
| ObjectMain.MainVersionExact | io_scene_xray/fmt_object_imp.py:227-229 | an object is imported only with version 0x10; any other u16 is refused with that value |
| ObjectMain.MainUnknownContinues | io_scene_xray/fmt_object_imp.py:348-349 | an unknown object chunk only adds a warning, and the loop goes on |
| ObjectMain.RootUnknownContinues | io_scene_xray/fmt_object_imp.py:360-361 | a root chunk other than MAIN only adds a warning, and the loop goes on |
| ObjectMain.BonesParentsFirst | io_scene_xray/fmt_object_imp.py:282-283 | BONES1 appends one bone per sub-chunk after the existing ones, and every parent comes before its child |
| ObjectMain.MeshesKeepLibrary | io_scene_xray/fmt_object_imp.py:241-243 | MESHES appends one mesh per sub-chunk; every material a mesh uses exists; old materials, textures and images are untouched |
| ObjectMain.SurfacesKeepCache | io_scene_xray/fmt_object_imp.py:244-273 | SURFACES2 keeps the image cache coherent, creates no material, and drops no texture or cached image |
| ObjectMain.SurfaceRecordKeepsCache | io_scene_xray/fmt_object_imp.py:247-273 | the same for one surface record |
| ObjectImport.ImportBone | io_scene_xray/fmt_object_imp.py:154-223 | `_import_bone` returns exactly `ImportBoneSpec` |
| ObjectImport.ReadBoneHeader | io_scene_xray/fmt_object_imp.py:155-172 | the version, DEF, BIND_POSE and parent steps return exactly `BoneHeader` |
| ObjectImport.ReadDef | io_scene_xray/fmt_object_imp.py:158-161 | the three `gets` return exactly the names `DefNames` gives, or the first read error |
| ObjectImport.ReadBonePose | io_scene_xray/fmt_object_imp.py:162-172 | the name check, BIND_POSE and parent lookup return exactly `BonePose` |
| ObjectImport.ReadBoneChunk | io_scene_xray/fmt_object_imp.py:183-223 | one chunk of the bone loop returns exactly `BoneChunk` |
| ObjectImport.ReadBoneProperty | io_scene_xray/fmt_object_imp.py:187-221 | the property chunks' reads return exactly `BoneProperty` |
| ObjectImport.ReadBones | io_scene_xray/fmt_object_imp.py:282-283 | the BONES1 loop returns exactly `BonesFrom` |
| ObjectImport.ReadMembers | io_scene_xray/fmt_object_imp.py:341-343 | the member loop follows `MembersFrom`, cursor included |
| ObjectImport.ReadObjectFields | io_scene_xray/fmt_object_imp.py:314-347 | TRANSFORM, FLAGS, USERDATA, LOD_REF, REVISION, PARTITIONS1 and MOTION_REFS each return exactly the object `ObjectFields` gives, or its read error |
| ObjectImport.ReadPartitions | io_scene_xray/fmt_object_imp.py:332-345 | PARTITIONS1 returns exactly `PartitionsChunk`; without a BONES1 chunk before it, that is `NoArmature` |
| ObjectImport.ImportContext.constructor | io_scene_xray/fmt_object_imp.py:11-17 | the context starts with the given library and host |
| ObjectImport.ImportContext.CachedImage | io_scene_xray/fmt_object_imp.py:19-24 | `image(relpath)` follows `CacheImage`, and touches no material or texture |
| ObjectImport.ImportContext.Texture | io_scene_xray/fmt_object_imp.py:265-268 | `textures.get` or a new texture with a cached image, as `TextureFor` gives |
| ObjectImport.ImportContext.AddMeshMaterials | io_scene_xray/fmt_object_imp.py:87-89 | leaves the materials as `AddMaterials` gives |
| ObjectImport.ImportContext.ReadMeshes | io_scene_xray/fmt_object_imp.py:241-243 | follows `MeshesFrom` |
| ObjectImport.ImportContext.ReadSurface | io_scene_xray/fmt_object_imp.py:247-273 | one SURFACES2 record follows `SurfaceRecord`, cursor included |
| ObjectImport.ImportContext.Apply | io_scene_xray/fmt_object_imp.py:256-273 | leaves the library as `ApplySurface` gives |
| ObjectImport.ImportContext.ReadSurfaces | io_scene_xray/fmt_object_imp.py:244-273 | follows `SurfacesChunk` |
| ObjectImport.ImportContext.ReadMainFields | io_scene_xray/fmt_object_imp.py:244-347 | the field-holding object chunks follow `MainFields` |
| ObjectImport.ImportContext.ReadMainChunk | io_scene_xray/fmt_object_imp.py:240-349 | one chunk of the object loop follows `MainChunk` |
| ObjectImport.ImportContext.ImportMain | io_scene_xray/fmt_object_imp.py:226-353 | `_import_main` follows `ImportMainSpec`: the chunk loop, then the polygon images |
| ObjectImport.ImportContext.AssignImages | io_scene_xray/fmt_object_imp.py:350-353 | the closing loop over the meshes passes or raises as `ImagesFrom` gives |
| ObjectImport.ImportContext.SetMeshImages | io_scene_xray/fmt_object_imp.py:351-353 | one mesh: no UV layer raises before any polygon; then as `MeshImages` gives |
| ObjectImport.ImportContext.ImportFile | io_scene_xray/fmt_object_imp.py:356-361 | `_import` follows `ImportSpec`: the objects, the warnings and the final library, or the first error, including a mesh without a UV layer, a polygon without a material and a material without a texture |
| Ogf.Heaviest | io_scene_xray/fmt_ogf_exp.py:41-54 | the scan's result is a position of the dictionary |
| Ogf.HeaviestIsMax | io_scene_xray/fmt_ogf_exp.py:41-54 | the scan with strict `>` finds the maximum weight among non-excluded keys, the first met on ties, and nothing exactly when no such weight exceeds -1 |
| Ogf.MaxTwoDefined | io_scene_xray/fmt_ogf_exp.py:40-55 | `max_two` yields two distinct keys exactly when two distinct keys weigh more than -1 |
| Ogf.MaxTwoSubMap | io_scene_xray/fmt_ogf_exp.py:40-55 | the result is a two-key sub-map with values copied unchanged; `k0` is the maximum and `k1` the maximum of the rest; no discarded weight exceeds `k1`'s |
| Ogf.MaxTwoFirstOnTies | io_scene_xray/fmt_ogf_exp.py:45-52 | ties go to the key met first |
| Ogf.MaxTwo | io_scene_xray/fmt_ogf_exp.py:40-55 | the two loops compute `MaxTwoOf` |
| Ogf.Slots | io_scene_xray/fmt_ogf_exp.py:120-121 | a vertex keeps one or two influences |
| Ogf.InfluenceCases | io_scene_xray/fmt_ogf_exp.py:122-138 | zero influences raise; one is written in both slots with `bw = 0`; two are written in iteration order with `bw = 1 - w0/(w0+w1)`, and a zero weight sum is the division error; more than two are cut to `max_two`'s pair |
| Ogf.BlendFactorIsShare | io_scene_xray/fmt_ogf_exp.py:132 | with non-negative weights, `bw` is the second bone's share, in `[0, 1]` |
| Ogf.MaxCountIsMax | io_scene_xray/fmt_ogf_exp.py:98-102 | `vwmx` is the largest influence count, 0 when there are no vertices |
| Ogf.MaxInfluences | io_scene_xray/fmt_ogf_exp.py:98-102 | the loop computes `MaxCount` |
| Ogf.KeyOfInjective | io_scene_xray/fmt_ogf_exp.py:90 | the dedup key, source vertex index included, identifies the corner |
| Ogf.FirstUseKeys | io_scene_xray/fmt_ogf_exp.py:91-94 | the vertex list has no duplicates and holds exactly the keys seen |
| Ogf.PositionsMembers | io_scene_xray/fmt_ogf_exp.py:91-94 | under the dedup invariant, a key is in `vmap` exactly when it is in `vertices` |
| Ogf.Intern | io_scene_xray/fmt_ogf_exp.py:91-95 | `vmap.get(vtx)` keeps `vmap[vertices[i]] == i` and returns the key's position |
| Ogf.InternFace | io_scene_xray/fmt_ogf_exp.py:86-96 | one face's corner loop: each index names that corner's key |
| Ogf.BuildVertices | io_scene_xray/fmt_ogf_exp.py:85-96 | the dedup loop gives distinct vertices in first-use order; `vertices[indices[f][l]]` is corner `l`'s key; corners with different keys (source vertex included) never share an index |
| Ogf.AddFace | io_scene_xray/fmt_ogf_exp.py:86-96 | one pass of the face loop: the vertex list stays the keys in first-use order of the faces so far, `vmap` their positions, and every corner index so far names its corner's key |
| Ogf.VertexRecordContents | io_scene_xray/fmt_ogf_exp.py:105-144 | a vertex record has 15 fields with one bone index (`vwmx == 1`) or 17 with two bone slots and the blend factor, in write order |
| Ogf.RecordsLayout | io_scene_xray/fmt_ogf_exp.py:104-144 | record `j` of the chunk sits at `j * size` and is that of vertex `j` |
| Ogf.RecordsFail | io_scene_xray/fmt_ogf_exp.py:137-138 | a record that cannot be written fails the chunk |
| Ogf.RecordsFirstFailure | io_scene_xray/fmt_ogf_exp.py:118-144 | the chunk reports the first failing record's error |
| Ogf.VertexChunkLayout | io_scene_xray/fmt_ogf_exp.py:104-118 | with `vwmx != 1` the chunk starts with `(0x240e3300, len(vertices))`; with `vwmx == 1` it has no header |
| Ogf.UnweightedVertexFails | io_scene_xray/fmt_ogf_exp.py:137-138 | with blended records, a vertex without influences fails the export |
| Ogf.WriteVertex | io_scene_xray/fmt_ogf_exp.py:106-144 | writes exactly `VertexRecord`, or fails with its error |
| Ogf.WriteSingle | io_scene_xray/fmt_ogf_exp.py:106-113 | writes exactly `SingleRecord`, or fails with its error |
| Ogf.WriteBlended | io_scene_xray/fmt_ogf_exp.py:118-144 | writes exactly `BlendedRecord`, or fails with its error |
| Ogf.WriteSlots | io_scene_xray/fmt_ogf_exp.py:122-144 | the slot loop writes exactly `SlotsRecord` |
| Ogf.WriteTail | io_scene_xray/fmt_ogf_exp.py:139-144 | appends exactly the attributes, the blend factor and the UV |
| Ogf.WriteRecords | io_scene_xray/fmt_ogf_exp.py:104-144 | the vertex loop writes exactly `Records` |
| Ogf.WriteVertexChunk | io_scene_xray/fmt_ogf_exp.py:104-145 | writes exactly `VertexChunk` |
| Ogf.TriplesLayout | io_scene_xray/fmt_ogf_exp.py:149-150 | the triples are written exactly when every face is a triangle of u16 indices, in face order |
| Ogf.IndexChunkLayout | io_scene_xray/fmt_ogf_exp.py:147-151 | the index chunk is `3 * len(indices)` then one u16 triple per face, in face order |
| Ogf.TriplesFirstFailure | io_scene_xray/fmt_ogf_exp.py:149-150 | the first face that cannot be written decides the error |
| Ogf.WriteAttributes | io_scene_xray/fmt_ogf_exp.py:139-142 | appends the four float triples (position, normal, tangent, binormal) in that order |
| Ogf.WriteTriple | io_scene_xray/fmt_ogf_exp.py:150 | writes exactly `Triple` |
| Ogf.WriteIndexChunk | io_scene_xray/fmt_ogf_exp.py:147-151 | writes exactly `IndexChunk` |
| Ogf.IndexOfDistinct | io_scene_xray/fmt_ogf_exp.py:91-94 | in a duplicate-free list, a key sits at one position only |
| Ogf.ChildIndicesResolve | io_scene_xray/fmt_ogf_exp.py:85-151 | every index in the index chunk names the output vertex whose key is that corner's |
| Ogf.IndicesArePositions | io_scene_xray/fmt_ogf_exp.py:85-96 | the indices built are the positions of the corner keys |
| Ogf.ExportChild | io_scene_xray/fmt_ogf_exp.py:82-151 | `_export_child` from the dedup loop to the index chunk yields exactly `ChildChunks` |
| Ogf.FlattenHasDescendants | io_scene_xray/fmt_ogf_exp.py:15-21 | the recursion visits every child and every descendant |
| Ogf.MinOfBounds | io_scene_xray/fmt_ogf_exp.py:19 | the lowered value is at most each lower corner, and is one of them or the start |
| Ogf.MaxOfBounds | io_scene_xray/fmt_ogf_exp.py:20 | the raised value is at least each upper corner, and is one of them or the start |
| Ogf.ExpandOne | io_scene_xray/fmt_ogf_exp.py:17-20 | one child widens `mn`/`mx` on every axis |
| Ogf.ExpandChildren | io_scene_xray/fmt_ogf_exp.py:15-21 | `expand_children_r` leaves `mn`/`mx` folded over all descendants in visiting order |
| Ogf.CalculateBbox | io_scene_xray/fmt_ogf_exp.py:10-24 | `calculate_bbox` starts from the object's corners and widens by every descendant |
| Ogf.BboxEncloses | io_scene_xray/fmt_ogf_exp.py:10-24 | per axis, `mn <=` and `mx >=` the corners of the object and all its descendants, and each bound is attained |
| Skls.ReadU32 | io_scene_xray/skls_browser.py:70 | `getf('I')` succeeds exactly with four bytes left, and advances by four |
| Skls.ReadU32Pair | io_scene_xray/skls_browser.py:76 | `getf('II')` succeeds exactly with eight bytes left, and returns the little-endian pair |
| Skls.FindZero | io_scene_xray/skls_browser.py:74 | the terminator `gets` looks for is the first zero byte from the cursor on, or there is none |
| Skls.ReadString | io_scene_xray/skls_browser.py:74 | `gets()` returns the bytes before the next zero byte and moves past that zero |
| Skls.ReadStringStopsAtTerminator | io_scene_xray/skls_browser.py:74 | the name has no zero byte; the read fails exactly when no terminator follows |
| Skls.PackedReader.GetU32 | io_scene_xray/skls_browser.py:70 | the cursor moves by four, and the value is `ReadU32`'s |
| Skls.PackedReader.GetS | io_scene_xray/skls_browser.py:74 | the value and the new cursor are `ReadString`'s |
| Skls.PackedReader.GetU32Pair | io_scene_xray/skls_browser.py:76 | the cursor moves by eight, and the value is `ReadU32Pair`'s |
| Skls.PackedReader.SetOffset | io_scene_xray/skls_browser.py:79 | the cursor becomes the given offset |
| Skls.PackedReader.Skip | io_scene_xray/skls_browser.py:81 | the cursor moves by the skip |
| Skls.PackedReader.View | io_scene_xray/skls_browser.py:80 | `getv()` is the buffer from the cursor on |
| Skls.ReadClip | io_scene_xray/skls_browser.py:73-81 | one iteration: the offset is the cursor before the name; frames are `end - start`; the next cursor is the post-name offset plus the skip |
| Skls.ClipName | io_scene_xray/skls_browser.py:73-74 | the recorded name is the bytes from the offset to the terminator |
| Skls.ClipAtAdvances | io_scene_xray/skls_browser.py:73-81 | every clip moves the cursor strictly forward |
| Skls.ScanLength | io_scene_xray/skls_browser.py:70-71 | the loop runs exactly `animations_count` times |
| Skls.ScanChain | io_scene_xray/skls_browser.py:71-81 | each clip starts where the previous one's skip ended |
| Skls.OffsetsIncrease | io_scene_xray/skls_browser.py:73-81 | recorded offsets strictly increase in file order |
| Skls.ScanFailsFrom | io_scene_xray/skls_browser.py:71-81 | a failing iteration fails the whole index |
| Skls.ToMapKeys | io_scene_xray/skls_browser.py:77 | the index's keys are exactly the clip names read |
| Skls.ToMapLastWins | io_scene_xray/skls_browser.py:77 | the entry under a name comes from the last clip with that name |
| Skls.ToMapSize | io_scene_xray/skls_browser.py:77 | the entry count is at most the clip count, and equal to it when names are distinct |
| Skls.ToMapSource | io_scene_xray/skls_browser.py:77 | every entry comes from a clip of that name |
| Skls.ReadClipStartsWithName | io_scene_xray/skls_browser.py:73-74 | reading a string at a clip's offset gives its name |
| Skls.IndexPointsAtName | io_scene_xray/skls_browser.py:73-157 | seeking to an indexed offset and reading a string gives back that entry's name |
| Skls.InsertionOrderListsKeys | io_scene_xray/skls_browser.py:77-101 | the dictionary's iteration order lists every key once |
| Skls.SklsFile.constructor | io_scene_xray/skls_browser.py:60-65 | the file holds its bytes with the cursor at 0 and an empty index |
| Skls.SklsFile.IndexAnimations | io_scene_xray/skls_browser.py:68-81 | `_index_animations` leaves `ToMap` of the scanned clips, or fails exactly when the scan fails |
| Skls.SklsFile.IndexOne | io_scene_xray/skls_browser.py:73-81 | one iteration stores the entry and ends at `ReadClip`'s next cursor |
| Skls.OpenSkls | io_scene_xray/skls_browser.py:60-66 | opening a file indexes it, or fails exactly when indexing fails |
| Skls.Items | io_scene_xray/skls_browser.py:101-104 | one list row per dictionary key, in iteration order, with its frame count |
| Skls.Select | io_scene_xray/skls_browser.py:114-186 | the same name as last time does nothing; an import is at the indexed offset; an unknown name misses; the previous action is freed |
| Skls.SelectAgainIsNoop | io_scene_xray/skls_browser.py:123-124 | selecting the just-imported clip again does nothing |
| Skls.SelectHoldsOne | io_scene_xray/skls_browser.py:138-144 | at most one decoded clip is kept |
| Skls.SelectSeeksToName | io_scene_xray/skls_browser.py:157 | random access places the cursor at the chosen name's first byte |
| Skls.Browser.constructor | io_scene_xray/skls_browser.py:87 | no file, an empty list |
| Skls.Browser.Open | io_scene_xray/skls_browser.py:93-106 | `execute` clears the list, indexes the file and lists its clips; a failure leaves an empty list |
| Skls.Row | io_scene_xray/skls_browser.py:122 | a row `i` of an `n`-row list names a position exactly when `-n <= i < n`; a negative row counts from the end |
| Skls.Browser.IndexChanged | io_scene_xray/skls_browser.py:114-157 | nothing without a file; a row outside `-n <= i < n` raises; otherwise the scene is `Select`'s for the clip at `Row`'s position (negative rows from the end), and an import leaves the cursor at the indexed offset |

## Left out

- **The Blender API.** These become plain records:
  - bmesh;
  - objects, meshes, armatures and edit bones;
  - modifiers (the EDGE_SPLIT modifier of SG, the armature modifiers of BONES1);
  - vertex groups, material and texture slots;
  - mode switches;
  - scene linking.

  Error-free Blender calls are assumed, except for these, which are modelled:
  - `bm.faces.new`'s ValueError, as an already-existing face or a vertex used twice;
  - the IndexError of `bm.verts[vi]` (`NoVertex`) and of `bmfaces[fi]` (`NoFace`);
  - the KeyError of `edit_bones[parent]` and `pose.bones[bn]` (`NoBone`);
  - the IndexError of `uv_textures[0]` (`NoUVLayer`) and of `materials[p.material_index]`
    (`NoMaterial`), and the AttributeError of a `None` `active_texture` (`NoTexture`).
- Bone matrices, head and tail placement (`mathutils`, normalized tails), `matrix_basis` of
  TRANSFORM: the model records the fields read. These are floating-point linear algebra.
- `bonemat`: the `bonemat` dictionary is filled only for the matrices, so it is left out.
- Blender's own renaming of a duplicate bone, material or texture name (`name.001`): the
  model keys by the name as read.
- The parent lookup: `edit_bones[parent]` also finds the bone just created when it names
  itself. The model looks only among the bones imported before it.
- ObjectImport.ImportContext.ImportFile: the images that the closing loop of `_import_main`
  (fmt_object_imp.py:350-353) gives the polygons are not recorded. Nothing later reads them.
  The loop's three errors are modelled.
- `cx.bpy` being `None`: the model always has a host. So SURFACES2 always applies its
  settings, and `NoArmature` stands for the unbound `bpy_arm_obj` of a PARTITIONS1 chunk
  that comes before any BONES1.
- ObjectMain.MeshesFrom: the materials a mesh's SFACE chunk creates (`materials.new`) are
  added to the library when the mesh is done rather than at the SFACE chunk. No mesh chunk
  reads the library, so the outcome is the same.
- ObjectMain.Lower: `str.lower` is modelled for ASCII letters only. There is no Unicode
  case folding.
- What an import built before an exception: the methods state nothing about the state
  after a failure. The exception ends the whole import.
- The container framing and the byte encoding of packed fields (`xray_io`): these are not
  part of this model. For `.object` files, chunks are records of typed fields or lists of
  sub-chunks. A chunk read the other way is an error (`NotPacked`/`NotChunked`) that stands
  for the byte-level mis-read. Likewise a packed field read in another format is the error
  `Mismatch`, where the Python reader would reinterpret the next bytes and read on.
- The OGF exporter's output:
  - the header (bounding sphere, `math.sqrt`) and texture chunks of `_export_child`;
  - `_export`;
  - triangulation, tangents and other host data, which are inputs (`Corner`, `Weights`).
- Float arithmetic is `real`. The float byte encoding of `putf('f', ...)` is not modelled.
- `print('warning: vwmx=%i')` is output only.
- The motion decoder (`_skip_motion_rest`, `import_motion`): these are a skip-length
  parameter and a seek.
- The browser's UI: panels, the file dialog, cursor changes, DopeSheet playback and
  animation cancel/unlink. File reading is I/O, so the file's bytes are a parameter.
