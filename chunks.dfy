/** The chunked container of an .object file (xray_io.ChunkedReader) with the chunk ids of
    `fmt_object.Chunks` as names. A chunk's contents are either packed fields or a nested
    list of chunks, as the code that reads it expects. */
module Chunks {
  import opened Util
  import opened Packed

  datatype Tag =
    // Chunks.Object
    | ObjectMain | ObjectVersion | ObjectMeshes | ObjectSurfaces2 | ObjectBones1 | ObjectTransform
    | ObjectFlags | ObjectUserData | ObjectLodRef | ObjectRevision | ObjectPartitions1 | ObjectMotionRefs
    // Chunks.Mesh
    | MeshVersion | MeshVerts | MeshFaces | MeshName | MeshSG | MeshSFace | MeshVMRefs | MeshVMaps2
    | MeshFlags | MeshBBox | MeshOptions
    // Chunks.Bone
    | BoneVersion | BoneDef | BoneBindPose | BoneMaterial | BoneShape | BoneIKJoint | BoneMassParams
    | BoneIKFlags | BoneBreakParams | BoneFriction
    // any other id
    | Other(cid: nat)

  datatype Chunk = Chunk(tag: Tag, data: Data)

  datatype Data = Packed(fs: seq<Field>) | Chunked(cs: seq<Chunk>)

  /** Where a chunk was met when its id was not recognised (`warn_imknown_chunk`). */
  datatype Location = Root | Main | Mesh | Bone

  /** What the import prints or reports without stopping. */
  datatype Warning =
    | UnknownChunk(tag: Tag, location: Location)
    | BoneVmapMismatch(bone: string, vmap: string)
    | BoneDefMismatch(bone: string, def: string)

  /** The errors that stop an import. */
  datatype Error =
    | Read(e: ReadError)              // Truncated: struct.error; Mismatch: a layout the reader disagrees with
    | NotPacked(tag: Tag)             // a chunk read as fields holds nested chunks
    | NotChunked(tag: Tag)            // a chunk read as chunks holds fields
    | MissingChunk(expected: Tag)     // `cr.next(id)`: the next chunk has another id
    | BadVersion(record: Tag, version: int)
    | NoVertex(vi: nat)               // IndexError on bm.verts
    | NoFace(fi: nat)                 // IndexError on bmfaces
    | UnknownVmapType(typ: int)
    | NoBone(name: string)            // KeyError on the armature's bones
    | NoArmature                      // PARTITIONS1 before any BONES1: `bpy_arm_obj` is unbound
    | NoUVLayer                       // IndexError on a mesh's `uv_textures[0]`
    | NoMaterial(index: nat)          // IndexError on a mesh's `materials[p.material_index]`
    | NoTexture(material: string)     // AttributeError: the material's `active_texture` is None

  function LiftRead<T>(r: Result<T, ReadError>): (l: Result<T, Error>)
    ensures l.Success? <==> r.Success?
    ensures l.Success? ==> l.value == r.value
    ensures l.Failure? ==> l.error == Read(r.error)
  {
    match r
    case Success(v) => Success(v)
    case Failure(e) => Failure(Read(e))
  }

  /** The fields of a chunk that is read with a PackedReader. */
  function FieldsOf(c: Chunk): (r: Result<seq<Field>, Error>)
    ensures r.Success? <==> c.data.Packed?
    ensures r.Success? ==> r.value == c.data.fs
  {
    if c.data.Packed? then Success(c.data.fs) else Failure(NotPacked(c.tag))
  }

  /** The sub-chunks of a chunk that is read with a ChunkedReader. */
  function ChunksOf(c: Chunk): (r: Result<seq<Chunk>, Error>)
    ensures r.Success? <==> c.data.Chunked?
    ensures r.Success? ==> r.value == c.data.cs
  {
    if c.data.Chunked? then Success(c.data.cs) else Failure(NotChunked(c.tag))
  }

  /** `cr.next(tag)`: the first chunk, which must carry `tag`. */
  function Next(cs: seq<Chunk>, tag: Tag): (r: Result<seq<Field>, Error>)
    ensures r.Success? <==> |cs| > 0 && cs[0].tag == tag && cs[0].data.Packed?
    ensures r.Success? ==> r.value == cs[0].data.fs
  {
    if |cs| == 0 || cs[0].tag != tag then Failure(MissingChunk(tag)) else FieldsOf(cs[0])
  }

  /** `cr.nextf(VERSION, 'H')[0]` followed by the exact check against `expected`. */
  function CheckVersion(cs: seq<Chunk>, tag: Tag, record: Tag, expected: nat): (r: Result<(), Error>)
    ensures r.Success? ==> |cs| > 0 && cs[0].tag == tag
  {
    var fs :- Next(cs, tag);
    var f :- LiftRead(GetAt(fs, 0, 'H'));
    if Num(f) != expected then Failure(BadVersion(record, Num(f))) else Success(())
  }

  /** The version word is accepted only when it equals `expected`; any other value, or a
      missing or unreadable version chunk, stops the import. */
  lemma CheckVersionExact(cs: seq<Chunk>, tag: Tag, record: Tag, expected: nat)
    requires expected < U16_LIMIT
    ensures CheckVersion(cs, tag, record, expected).Success? <==>
      |cs| > 0 && cs[0] == Chunk(tag, cs[0].data) && cs[0].data.Packed? &&
      |cs[0].data.fs| > 0 && cs[0].data.fs[0] == U16(expected)
    ensures CheckVersion(cs, tag, record, expected).Failure? &&
      |cs| > 0 && cs[0].tag == tag && cs[0].data.Packed? &&
      |cs[0].data.fs| > 0 && cs[0].data.fs[0].U16? && cs[0].data.fs[0].h != expected &&
      0 <= cs[0].data.fs[0].h < U16_LIMIT
      ==> CheckVersion(cs, tag, record, expected).error == BadVersion(record, cs[0].data.fs[0].h)
  {
    if |cs| > 0 && cs[0].tag == tag && cs[0].data.Packed? && |cs[0].data.fs| > 0 && Fits(cs[0].data.fs[0], 'H') {
      NumOfFit(cs[0].data.fs[0], 'H');
    }
  }
}
