/** The object record of an .object file (`_import_main`) and the file's root (`_import`):
    the version, the meshes, the surfaces that set up materials and textures, the bones,
    the bone groups and the object's own properties; plus `ImportContext.image`, the cache
    of texture images. What the import adds to the host's data (materials, textures, the
    image cache) is the `Library`; what belongs to one imported object is `ObjectData`. */
module ObjectMain {
  import opened Util
  import opened Packed
  import opened Chunks
  import opened ObjectMesh
  import opened ObjectBone

  // ---------------------------------------------------------------------------
  // The texture image cache

  /** A loaded image, named by the file it was loaded from. */
  datatype Image = Image(file: string)

  /** Where images come from: the gamedata folder and the host's `os.path.sep`. */
  datatype Host = Host(gamedata: string, sep: char)

  /** `str.lower` on one character, for the ASCII letters. */
  function Lower(c: char): char
  {
    if 'A' <= c <= 'Z' then (c as int + 32) as char else c
  }

  /** `relpath.lower().replace('\\', os.path.sep)`. */
  function NormalizePath(relpath: string, sep: char): (r: string)
    ensures |r| == |relpath|
  {
    seq(|relpath|, i requires 0 <= i < |relpath| => if relpath[i] == '\\' then sep else Lower(relpath[i]))
  }

  /** `'{}/textures/{}.dds'.format(gamedata, relpath)`, loaded. */
  function ImageFile(gamedata: string, key: string): Image
  {
    Image(gamedata + "/textures/" + key + ".dds")
  }

  /** `self.__images`, and the normalized paths whose image was loaded, in order. */
  datatype Cache = Cache(images: map<string, Image>, loads: seq<string>)

  /** `ImportContext.image(relpath)`: the cached image of the normalized path, or the image
      loaded now and cached. */
  function CacheImage(h: Host, c: Cache, relpath: string): (Image, Cache)
  {
    var key := NormalizePath(relpath, h.sep);
    if key in c.images then (c.images[key], c)
    else
      var img := ImageFile(h.gamedata, key);
      (img, Cache(c.images[key := img], c.loads + [key]))
  }

  /** Every cached image is the file of its key, and each cached key was loaded exactly
      once. */
  ghost predicate Coherent(h: Host, c: Cache)
  {
    (forall k :: k in c.images ==> c.images[k] == ImageFile(h.gamedata, k)) &&
    (forall k :: k in c.images <==> k in c.loads) &&
    Distinct(c.loads)
  }

  /** The cache stays coherent: a path is loaded only when no image is cached for it;
      looking it up again returns the cached image and changes nothing. */
  lemma CacheKeepsCoherent(h: Host, c: Cache, relpath: string)
    requires Coherent(h, c)
    ensures var (img, c2) := CacheImage(h, c, relpath);
      Coherent(h, c2) && img == ImageFile(h.gamedata, NormalizePath(relpath, h.sep)) &&
      c2.images.Keys == c.images.Keys + {NormalizePath(relpath, h.sep)}
  {
    var key := NormalizePath(relpath, h.sep);
    if key !in c.images {
      var c2 := CacheImage(h, c, relpath).1;
      forall i, j | 0 <= i < j < |c2.loads|
        ensures c2.loads[i] != c2.loads[j]
      {
        if j == |c.loads| {
          assert c.loads[i] in c.images;
        }
      }
    }
  }

  /** Two paths that normalize alike share one entry: the second lookup returns the first
      one's image and leaves the cache as the first left it. */
  lemma CacheRepeat(h: Host, c: Cache, p: string, q: string)
    requires NormalizePath(p, h.sep) == NormalizePath(q, h.sep)
    ensures var (img, c2) := CacheImage(h, c, p);
      CacheImage(h, c2, q) == (img, c2)
  {
  }

  /** Normalizing twice is normalizing once, when the separator is no capital letter; the
      result holds no capital letter and, unless the separator is one, no backslash. */
  lemma NormalizeCanonical(relpath: string, sep: char)
    requires !('A' <= sep <= 'Z')
    ensures NormalizePath(NormalizePath(relpath, sep), sep) == NormalizePath(relpath, sep)
    ensures forall i :: 0 <= i < |relpath| ==> !('A' <= NormalizePath(relpath, sep)[i] <= 'Z')
    ensures sep != '\\' ==> '\\' !in NormalizePath(relpath, sep)
  {
  }

  /** Paths that differ only in ASCII case and in the kind of slash the separator stands
      for normalize alike. */
  lemma NormalizeIgnoresCase(p: string, q: string, sep: char)
    requires |p| == |q|
    requires forall i :: 0 <= i < |p| ==>
      (if p[i] == '\\' then sep else Lower(p[i])) == (if q[i] == '\\' then sep else Lower(q[i]))
    ensures NormalizePath(p, sep) == NormalizePath(q, sep)
  {
  }

  // ---------------------------------------------------------------------------
  // The library and the object

  /** A material's X-Ray settings and its texture slots. */
  datatype Material = Material(flags: nat, eshader: string, cshader: string, gamemtl: string, slots: seq<TextureSlot>)

  /** `texture_slots.add()`: the texture it shows and the UV layer it reads. */
  datatype TextureSlot = TextureSlot(texture: string, uvLayer: string)

  /** `bpy.data.materials.new(n)`. */
  const NewMaterial := Material(0, "", "", "", [])

  /** What an import adds to the host's data: materials by name, textures by name (each with
      its image), and the context's image cache. */
  datatype Library = Library(materials: map<string, Material>, textures: map<string, Image>, cache: Cache)

  datatype Revision = Revision(owner: string, ctime: nat, moder: string, mtime: nat)

  /** One imported object: its meshes, its armature's bones (none until a BONES1 chunk), the
      pose bone groups and the group of each grouped bone (by index), the transforms applied to it in order, and its X-Ray properties. */
  datatype ObjectData = ObjectData(
    meshes: seq<MeshState>,
    armature: Option<seq<Bone>>,
    boneGroups: seq<string>,
    grouping: map<nat, nat>,
    transforms: seq<seq<seq<Field>>>,
    flags: nat,
    userdata: string,
    lodref: string,
    revision: Revision,
    motionrefs: string)

  const NewObject := ObjectData([], None, [], map[], [], 0, "", "", Revision("", 0, "", 0), "")

  const OBJECT_VERSION := 0x10

  datatype Scene = Scene(lib: Library, obj: ObjectData)

  // ---------------------------------------------------------------------------
  // MESHES

  /** `materials.get(n)`, or `materials.new(n)` when there is none, for each name. */
  function AddMaterials(ms: map<string, Material>, names: seq<string>): (r: map<string, Material>)
    ensures forall n :: n in r <==> n in ms || n in names
    ensures forall n :: n in ms ==> r[n] == ms[n]
    ensures forall n :: n in names && n !in ms ==> r[n] == NewMaterial
  {
    map n | n in ms.Keys + NameSet(names) :: if n in ms then ms[n] else NewMaterial
  }

  function NameSet(names: seq<string>): set<string>
  {
    set k | k in names
  }

  /** The MESHES loop from sub-chunk `k` on: each is a mesh record. */
  function MeshesFrom(sc: Scene, subs: seq<Chunk>, k: nat, ws: seq<Warning>): Result<(Scene, seq<Warning>), Error>
    decreases |subs| - k
  {
    if k >= |subs| then Success((sc, ws))
    else
      var mcs :- ChunksOf(subs[k]);
      var m :- ImportMeshSpec(mcs);
      var lib := sc.lib.(materials := AddMaterials(sc.lib.materials, m.0.materials));
      MeshesFrom(Scene(lib, sc.obj.(meshes := sc.obj.meshes + [m.0])), subs, k + 1, ws + m.1)
  }

  // ---------------------------------------------------------------------------
  // SURFACES2

  /** `bpy.data.textures.get(name)`, or a new texture whose image is `cx.image(name)`; the
      textures and the cache after it. */
  function TextureFor(h: Host, lib: Library, name: string): (map<string, Image>, Cache)
  {
    if name in lib.textures then (lib.textures, lib.cache)
    else
      var (img, cache) := CacheImage(h, lib.cache, name);
      (lib.textures[name := img], cache)
  }

  /** A surface applied to the material of its name: nothing when there is no such
      material; otherwise its settings, and a texture slot when it names a texture. */
  function ApplySurface(h: Host, lib: Library, n: string, eshader: string, cshader: string, gamemtl: string,
                        texture: string, vmap: string, flags: nat): Library
  {
    if n !in lib.materials then lib
    else
      var m := lib.materials[n].(flags := flags, eshader := eshader, cshader := cshader, gamemtl := gamemtl);
      if texture == "" then lib.(materials := lib.materials[n := m])
      else
        var (textures, cache) := TextureFor(h, lib, texture);
        Library(lib.materials[n := m.(slots := m.slots + [TextureSlot(texture, vmap)])], textures, cache)
  }

  /** One SURFACES2 record at `pos`: six strings and three u32 (flags, fvf and one unused);
      the library and the position after it. */
  function SurfaceRecord(h: Host, lib: Library, fs: seq<Field>, pos: nat): Result<(Library, nat), Error>
  {
    var n :- LiftRead(GetAt(fs, pos, 's'));
    var eshader :- LiftRead(GetAt(fs, pos + 1, 's'));
    var cshader :- LiftRead(GetAt(fs, pos + 2, 's'));
    var gamemtl :- LiftRead(GetAt(fs, pos + 3, 's'));
    var texture :- LiftRead(GetAt(fs, pos + 4, 's'));
    var vmap :- LiftRead(GetAt(fs, pos + 5, 's'));
    var flags :- LiftRead(GetAt(fs, pos + 6, 'I'));
    var _ :- LiftRead(GetAt(fs, pos + 7, 'I'));
    var _ :- LiftRead(GetAt(fs, pos + 8, 'I'));
    Success((ApplySurface(h, lib, Text(n), Text(eshader), Text(cshader), Text(gamemtl), Text(texture), Text(vmap), Num(flags)), pos + 9))
  }

  /** `n` more SURFACES2 records from `pos`. */
  function SurfacesFrom(h: Host, lib: Library, fs: seq<Field>, pos: nat, n: nat): Result<Library, Error>
    decreases n
  {
    if n == 0 then Success(lib)
    else
      var r :- SurfaceRecord(h, lib, fs, pos);
      SurfacesFrom(h, r.0, fs, r.1, n - 1)
  }

  /** The SURFACES2 chunk: a u32 count of surface records. */
  function SurfacesChunk(h: Host, lib: Library, fs: seq<Field>): Result<Library, Error>
  {
    var n :- LiftRead(GetAt(fs, 0, 'I'));
    SurfacesFrom(h, lib, fs, 1, Num(n))
  }

  /** A surface whose material does not exist changes nothing (`continue`). */
  lemma SurfaceSkipsUnknown(h: Host, lib: Library, n: string, eshader: string, cshader: string, gamemtl: string,
                            texture: string, vmap: string, flags: nat)
    requires n !in lib.materials
    ensures ApplySurface(h, lib, n, eshader, cshader, gamemtl, texture, vmap, flags) == lib
  {
  }

  /** A surface sets its material's settings and changes no other material; its texture's
      image is loaded through the cache only when the texture is new, and an existing
      texture leaves the cache as it was. */
  lemma SurfaceEffect(h: Host, lib: Library, n: string, eshader: string, cshader: string, gamemtl: string,
                      texture: string, vmap: string, flags: nat)
    requires n in lib.materials
    ensures var l2 := ApplySurface(h, lib, n, eshader, cshader, gamemtl, texture, vmap, flags);
      l2.materials.Keys == lib.materials.Keys &&
      (forall m :: m in lib.materials && m != n ==> l2.materials[m] == lib.materials[m]) &&
      var m := l2.materials[n];
      m.flags == flags && m.eshader == eshader && m.cshader == cshader && m.gamemtl == gamemtl &&
      m.slots == lib.materials[n].slots + (if texture == "" then [] else [TextureSlot(texture, vmap)]) &&
      (texture == "" || texture in lib.textures ==> l2.textures == lib.textures && l2.cache == lib.cache) &&
      (texture != "" && texture !in lib.textures ==>
        l2.textures == lib.textures[texture := CacheImage(h, lib.cache, texture).0] &&
        l2.cache == CacheImage(h, lib.cache, texture).1)
  {
  }

  // ---------------------------------------------------------------------------
  // BONES1

  /** The BONES1 loop from sub-chunk `k` on: each is a bone record, added after the bones
      before it. */
  function BonesFrom(bones: seq<Bone>, subs: seq<Chunk>, k: nat, ws: seq<Warning>): Result<(seq<Bone>, seq<Warning>), Error>
    decreases |subs| - k
  {
    if k >= |subs| then Success((bones, ws))
    else
      var bcs :- ChunksOf(subs[k]);
      var b :- ImportBoneSpec(bcs, bones);
      BonesFrom(bones + [b.0], subs, k + 1, ws + b.1)
  }

  // ---------------------------------------------------------------------------
  // PARTITIONS1

  /** The first bone named `name`. */
  function FindBone(bones: seq<Bone>, name: string): (r: Option<nat>)
    ensures r.None? <==> !HasBone(bones, name)
    ensures r.Some? ==> r.value < |bones| && bones[r.value].name == name
    ensures r.Some? ==> forall k :: 0 <= k < r.value ==> bones[k].name != name
  {
    FindFrom(bones, name, 0)
  }

  /** The first bone named `name` at index `i` or after it. */
  function FindFrom(bones: seq<Bone>, name: string, i: nat): (r: Option<nat>)
    ensures r.None? <==> forall k :: i <= k < |bones| ==> bones[k].name != name
    ensures r.Some? ==> i <= r.value < |bones| && bones[r.value].name == name
    ensures r.Some? ==> forall k :: i <= k < r.value ==> bones[k].name != name
    decreases |bones| - i
  {
    if i >= |bones| then None else if bones[i].name == name then Some(i) else FindFrom(bones, name, i + 1)
  }

  /** `n` more bone names of group `gi` from `pos`: `pose.bones[bn].bone_group = bg`, where
      `grouping` maps a bone's index to its group's; the grouping and the position after
      the names. */
  function MembersFrom(bones: seq<Bone>, grouping: map<nat, nat>, gi: nat, fs: seq<Field>, pos: nat, n: nat)
    : Result<(map<nat, nat>, nat), Error>
    decreases n, 1
  {
    if n == 0 then Success((grouping, pos)) else MembersAfter(bones, grouping, gi, fs, pos, n)
  }

  /** The name at `pos`, then the `n - 1` after it. */
  function MembersAfter(bones: seq<Bone>, grouping: map<nat, nat>, gi: nat, fs: seq<Field>, pos: nat, n: nat)
    : Result<(map<nat, nat>, nat), Error>
    requires n > 0
    decreases n, 0
  {
    var bn :- LiftRead(GetAt(fs, pos, 's'));
    match FindBone(bones, Text(bn))
    case None => Failure(NoBone(Text(bn)))
    case Some(i) => MembersFrom(bones, grouping[i := gi], gi, fs, pos + 1, n - 1)
  }

  /** One PARTITIONS1 record at `pos`: `pose.group_add()`, the group's name, then a u32
      count of bone names. */
  function PartitionRecord(bones: seq<Bone>, grouping: map<nat, nat>, groups: seq<string>, fs: seq<Field>, pos: nat)
    : Result<(map<nat, nat>, seq<string>, nat), Error>
  {
    var name :- LiftRead(GetAt(fs, pos, 's'));
    var c :- LiftRead(GetAt(fs, pos + 1, 'I'));
    var m :- MembersFrom(bones, grouping, |groups|, fs, pos + 2, Num(c));
    Success((m.0, groups + [Text(name)], m.1))
  }

  /** `n` more PARTITIONS1 records from `pos`. */
  function PartitionsFrom(bones: seq<Bone>, grouping: map<nat, nat>, groups: seq<string>, fs: seq<Field>, pos: nat, n: nat)
    : Result<(map<nat, nat>, seq<string>), Error>
    decreases n
  {
    if n == 0 then Success((grouping, groups))
    else
      var r :- PartitionRecord(bones, grouping, groups, fs, pos);
      PartitionsFrom(bones, r.0, r.1, fs, r.2, n - 1)
  }

  /** The PARTITIONS1 chunk, which needs the armature object a BONES1 chunk made. */
  function PartitionsChunk(obj: ObjectData, fs: seq<Field>): Result<ObjectData, Error>
  {
    if obj.armature.None? then Failure(NoArmature)
    else
      var n :- LiftRead(GetAt(fs, 0, 'I'));
      var r :- PartitionsFrom(obj.armature.value, obj.grouping, obj.boneGroups, fs, 1, Num(n));
      Success(obj.(grouping := r.0, boneGroups := r.1))
  }

  /** One name of a member list: it is a bone, which joins group `gi` before the rest of
      the list is read. */
  lemma MembersStep(bones: seq<Bone>, grouping: map<nat, nat>, gi: nat, fs: seq<Field>, pos: nat, n: nat)
    requires n > 0 && MembersFrom(bones, grouping, gi, fs, pos, n).Success?
    ensures pos < |fs| && Fits(fs[pos], 's') && FindBone(bones, Text(fs[pos])).Some?
    ensures MembersFrom(bones, grouping, gi, fs, pos, n) ==
      MembersFrom(bones, grouping[FindBone(bones, Text(fs[pos])).value := gi], gi, fs, pos + 1, n - 1)
  {
  }

  /** A group's member list is read only when every listed name is a bone (a name that is
      none raises). */
  lemma {:induction false} MembersNames(bones: seq<Bone>, grouping: map<nat, nat>, gi: nat, fs: seq<Field>, pos: nat, n: nat)
    requires MembersFrom(bones, grouping, gi, fs, pos, n).Success?
    ensures n > 0 ==> pos + n <= |fs|
    ensures forall k :: pos <= k < pos + n ==> Fits(fs[k], 's') && HasBone(bones, Text(fs[k]))
    decreases n
  {
    if n > 0 {
      MembersStep(bones, grouping, gi, fs, pos, n);
      MembersNames(bones, grouping[FindBone(bones, Text(fs[pos])).value := gi], gi, fs, pos + 1, n - 1);
    }
  }

  /** Bone `i` is named by one of the `n` member names from `pos`. */
  ghost predicate Listed(bones: seq<Bone>, fs: seq<Field>, pos: nat, n: nat, i: nat)
  {
    exists k :: pos <= k < pos + n && k < |fs| && FindBone(bones, Text(fs[k])) == Some(i)
  }

  /** The names from `pos` are the one at `pos` and those after it. */
  lemma ListedStep(bones: seq<Bone>, fs: seq<Field>, pos: nat, n: nat, i: nat)
    requires n > 0 && pos < |fs|
    ensures Listed(bones, fs, pos, n, i) <==>
      FindBone(bones, Text(fs[pos])) == Some(i) || Listed(bones, fs, pos + 1, n - 1, i)
  {
    if Listed(bones, fs, pos, n, i) && FindBone(bones, Text(fs[pos])) != Some(i) {
      var k :| pos <= k < pos + n && k < |fs| && FindBone(bones, Text(fs[k])) == Some(i);
      assert k != pos;
    }
  }

  /** A member list moves exactly the bones it names into group `gi`: every grouped bone
      stays grouped, in its old group or in `gi`; a newly grouped index is a listed bone of
      group `gi`; and a bone the list does not name keeps its old group. */
  lemma {:induction false} MembersEffect(bones: seq<Bone>, grouping: map<nat, nat>, gi: nat, fs: seq<Field>, pos: nat, n: nat)
    requires MembersFrom(bones, grouping, gi, fs, pos, n).Success?
    ensures var r := MembersFrom(bones, grouping, gi, fs, pos, n).value.0;
      forall i :: i in grouping ==> i in r && (r[i] == grouping[i] || r[i] == gi)
    ensures var r := MembersFrom(bones, grouping, gi, fs, pos, n).value.0;
      forall i :: i in r && i !in grouping ==> i < |bones| && r[i] == gi
    ensures var r := MembersFrom(bones, grouping, gi, fs, pos, n).value.0;
      forall i: nat :: i in r <==> i in grouping || Listed(bones, fs, pos, n, i)
    ensures var r := MembersFrom(bones, grouping, gi, fs, pos, n).value.0;
      forall i :: i in r ==> r[i] == if Listed(bones, fs, pos, n, i) then gi else grouping[i]
    decreases n
  {
    if n > 0 {
      MembersStep(bones, grouping, gi, fs, pos, n);
      var b := FindBone(bones, Text(fs[pos])).value;
      var g := grouping[b := gi];
      MembersEffect(bones, g, gi, fs, pos + 1, n - 1);
      forall i: nat {
        ListedStep(bones, fs, pos, n, i);
      }
    }
  }

  /** A bone the list names ends in the group. */
  lemma {:induction false} MembersJoin(bones: seq<Bone>, grouping: map<nat, nat>, gi: nat, fs: seq<Field>, pos: nat, n: nat, k: nat, j: nat)
    requires MembersFrom(bones, grouping, gi, fs, pos, n).Success?
    requires pos <= k < pos + n && k < |fs| && FindBone(bones, Text(fs[k])) == Some(j)
    ensures var r := MembersFrom(bones, grouping, gi, fs, pos, n).value.0;
      j in r && r[j] == gi
  {
    MembersEffect(bones, grouping, gi, fs, pos, n);
    assert Listed(bones, fs, pos, n, j);
  }

  // ---------------------------------------------------------------------------
  // The object chunk loop

  /** The tags `_import_main` reads after the version; any other tag is unknown there. */
  predicate MainKnown(t: Tag)
  {
    t in {ObjectMeshes, ObjectSurfaces2, ObjectBones1, ObjectTransform, ObjectFlags, ObjectUserData,
          ObjectLodRef, ObjectRevision, ObjectPartitions1, ObjectMotionRefs}
  }

  const TRANSFORM_LAYOUT: Layout := [('f', 3), ('f', 3)]

  /** The chunks of the object that hold packed fields. */
  function MainFields(h: Host, sc: Scene, t: Tag, fs: seq<Field>): Result<Scene, Error>
  {
    if t == ObjectSurfaces2 then
      var lib :- SurfacesChunk(h, sc.lib, fs);
      Success(sc.(lib := lib))
    else
      var o :- ObjectFields(sc.obj, t, fs);
      Success(sc.(obj := o))
  }

  /** The chunks that only set fields of the object itself. */
  function ObjectFields(obj: ObjectData, t: Tag, fs: seq<Field>): Result<ObjectData, Error>
  {
    if t == ObjectTransform then
      var g :- LiftRead(GroupsFrom([], fs, 0, TRANSFORM_LAYOUT));
      Success(obj.(transforms := obj.transforms + [g]))
    else if t == ObjectFlags then
      var f :- LiftRead(GetAt(fs, 0, 'I'));
      Success(obj.(flags := Num(f)))
    else if t == ObjectUserData then
      var s :- LiftRead(GetAt(fs, 0, 's'));
      Success(obj.(userdata := Text(s)))
    else if t == ObjectLodRef then
      var s :- LiftRead(GetAt(fs, 0, 's'));
      Success(obj.(lodref := Text(s)))
    else if t == ObjectRevision then
      var owner :- LiftRead(GetAt(fs, 0, 's'));
      var ctime :- LiftRead(GetAt(fs, 1, 'I'));
      var moder :- LiftRead(GetAt(fs, 2, 's'));
      var mtime :- LiftRead(GetAt(fs, 3, 'I'));
      Success(obj.(revision := Revision(Text(owner), Num(ctime), Text(moder), Num(mtime))))
    else if t == ObjectPartitions1 then PartitionsChunk(obj, fs)
    else if t == ObjectMotionRefs then
      var s :- LiftRead(GetAt(fs, 0, 's'));
      Success(obj.(motionrefs := Text(s)))
    else Success(obj)
  }

  /** One chunk of the object loop: the scene after it and the warnings. */
  function MainChunk(h: Host, sc: Scene, c: Chunk): Result<(Scene, seq<Warning>), Error>
  {
    if !MainKnown(c.tag) then Success((sc, [UnknownChunk(c.tag, Main)]))
    else if c.tag == ObjectMeshes then
      var subs :- ChunksOf(c);
      MeshesFrom(sc, subs, 0, [])
    else if c.tag == ObjectBones1 then
      var subs :- ChunksOf(c);
      var bones := if sc.obj.armature.Some? then sc.obj.armature.value else [];
      var r :- BonesFrom(bones, subs, 0, []);
      Success((sc.(obj := sc.obj.(armature := Some(r.0))), r.1))
    else
      var fs :- FieldsOf(c);
      var sc2 :- MainFields(h, sc, c.tag, fs);
      Success((sc2, []))
  }

  /** The object loop from chunk `k` on. */
  function MainChunksFrom(h: Host, sc: Scene, cs: seq<Chunk>, k: nat, ws: seq<Warning>): Result<(Scene, seq<Warning>), Error>
    decreases |cs| - k
  {
    if k >= |cs| then Success((sc, ws))
    else
      var r :- MainChunk(h, sc, cs[k]);
      MainChunksFrom(h, r.0, cs, k + 1, ws + r.1)
  }

  // ---------------------------------------------------------------------------
  // The polygon images

  /** `bmat.active_texture`: the texture slot a material shows first, if it has one. A name
      the library does not hold has none. */
  function ActiveSlot(lib: Library, name: string): Option<TextureSlot>
  {
    if name in lib.materials && |lib.materials[name].slots| > 0 then Some(lib.materials[name].slots[0]) else None
  }

  /** A polygon can take its image: its material index names one of the mesh's materials,
      and that material has an active texture. */
  predicate HasImage(lib: Library, m: MeshState, f: Face)
  {
    f.material < |m.materials| && ActiveSlot(lib, m.materials[f.material]).Some?
  }

  /** What a polygon without an image raises: `materials[p.material_index]` past the end,
      or `.image` of the `None` active texture. */
  function ImageError(lib: Library, m: MeshState, f: Face): Error
  {
    if f.material < |m.materials| then NoTexture(m.materials[f.material]) else NoMaterial(f.material)
  }

  /** The polygons of a mesh from face slot `fi` on, in order (the faces `bm.faces.new`
      made; a `None` slot is no polygon): each takes its material's texture image. */
  function PolygonImagesFrom(lib: Library, m: MeshState, fi: nat): Outcome<Error>
    decreases |m.faces| - fi
  {
    if fi >= |m.faces| then Pass
    else if m.faces[fi].None? then PolygonImagesFrom(lib, m, fi + 1)
    else if !HasImage(lib, m, m.faces[fi].value) then Fail(ImageError(lib, m, m.faces[fi].value))
    else PolygonImagesFrom(lib, m, fi + 1)
  }

  /** One mesh of the closing loop: `m.data.uv_textures[0]` is taken before any polygon, so
      a mesh that no UV map gave a layer raises even when it has no polygons. */
  function MeshImages(lib: Library, m: MeshState): Outcome<Error>
  {
    if m.uvs == map[] then Fail(NoUVLayer) else PolygonImagesFrom(lib, m, 0)
  }

  /** The closing loop of `_import_main` from mesh `k` on. */
  function ImagesFrom(lib: Library, meshes: seq<MeshState>, k: nat): Outcome<Error>
    decreases |meshes| - k
  {
    if k >= |meshes| then Pass
    else
      :- MeshImages(lib, meshes[k]);
      ImagesFrom(lib, meshes, k + 1)
  }

  /** Every polygon of the mesh can take its image, and the mesh has a UV layer. */
  ghost predicate MeshHasImages(lib: Library, m: MeshState)
  {
    m.uvs != map[] && forall fi :: 0 <= fi < |m.faces| && m.faces[fi].Some? ==> HasImage(lib, m, m.faces[fi].value)
  }

  /** `_import_main`: the version chunk, which must hold exactly 0x10, then the loop over a
      new object, then the images of the polygons of its meshes. */
  function ImportMainSpec(h: Host, lib: Library, cs: seq<Chunk>): Result<(Scene, seq<Warning>), Error>
  {
    var _ :- CheckVersion(cs, ObjectVersion, ObjectVersion, OBJECT_VERSION);
    var r :- MainChunksFrom(h, Scene(lib, NewObject), cs, 1, []);
    match ImagesFrom(r.0.lib, r.0.obj.meshes, 0)
    case Fail(e) => Failure(e)
    case Pass => Success(r)
  }

  /** The root loop from chunk `k` on: each MAIN chunk is an object; the library after
      them, the objects and the warnings. */
  function RootFrom(h: Host, lib: Library, cs: seq<Chunk>, k: nat, objs: seq<ObjectData>, ws: seq<Warning>)
    : Result<(Library, seq<ObjectData>, seq<Warning>), Error>
    decreases |cs| - k
  {
    if k >= |cs| then Success((lib, objs, ws))
    else if cs[k].tag != ObjectMain then RootFrom(h, lib, cs, k + 1, objs, ws + [UnknownChunk(cs[k].tag, Root)])
    else
      var sub :- ChunksOf(cs[k]);
      var m :- ImportMainSpec(h, lib, sub);
      RootFrom(h, m.0.lib, cs, k + 1, objs + [m.0.obj], ws + m.1)
  }

  /** `_import`: the root chunks of the file. */
  function ImportSpec(h: Host, lib: Library, cs: seq<Chunk>): Result<(Library, seq<ObjectData>, seq<Warning>), Error>
  {
    RootFrom(h, lib, cs, 0, [], [])
  }

  // ---------------------------------------------------------------------------
  // Properties of the loops

  /** An object is imported only when its version word is 0x10; with any other word it is
      refused with that word. */
  lemma MainVersionExact(h: Host, lib: Library, cs: seq<Chunk>, v: nat)
    ensures ImportMainSpec(h, lib, cs).Success? ==>
      cs[0].tag == ObjectVersion && cs[0].data.Packed? && |cs[0].data.fs| > 0 && cs[0].data.fs[0] == U16(OBJECT_VERSION)
    ensures (|cs| > 0 && cs[0].tag == ObjectVersion && cs[0].data.Packed? && |cs[0].data.fs| > 0 &&
             cs[0].data.fs[0] == U16(v) && v != OBJECT_VERSION && v < U16_LIMIT) ==>
      ImportMainSpec(h, lib, cs) == Failure(BadVersion(ObjectVersion, v))
  {
    CheckVersionExact(cs, ObjectVersion, ObjectVersion, OBJECT_VERSION);
  }

  /** The polygons from slot `fi` on all take their images exactly when each of them has a
      material with an active texture; otherwise the first polygon without one raises. */
  lemma {:induction false} PolygonImagesExact(lib: Library, m: MeshState, fi: nat)
    ensures PolygonImagesFrom(lib, m, fi).Pass? <==>
      forall j :: fi <= j < |m.faces| && m.faces[j].Some? ==> HasImage(lib, m, m.faces[j].value)
    ensures PolygonImagesFrom(lib, m, fi).Fail? ==>
      exists j :: fi <= j < |m.faces| && m.faces[j].Some? && !HasImage(lib, m, m.faces[j].value) &&
        PolygonImagesFrom(lib, m, fi).error == ImageError(lib, m, m.faces[j].value) &&
        forall i :: fi <= i < j && m.faces[i].Some? ==> HasImage(lib, m, m.faces[i].value)
    decreases |m.faces| - fi
  {
    if fi < |m.faces| {
      PolygonImagesExact(lib, m, fi + 1);
    }
  }

  /** The closing loop passes exactly when every mesh from `k` on has a UV layer and images
      for all its polygons. */
  lemma {:induction false} ImagesExact(lib: Library, meshes: seq<MeshState>, k: nat)
    ensures ImagesFrom(lib, meshes, k).Pass? <==> forall i :: k <= i < |meshes| ==> MeshHasImages(lib, meshes[i])
    decreases |meshes| - k
  {
    if k < |meshes| {
      PolygonImagesExact(lib, meshes[k], 0);
      ImagesExact(lib, meshes, k + 1);
    }
  }

  /** An imported object's meshes all have a UV layer, and every polygon's material, in
      the library the import leaves, has an active texture. */
  lemma ImportedMeshesHaveImages(h: Host, lib: Library, cs: seq<Chunk>)
    requires ImportMainSpec(h, lib, cs).Success?
    ensures var sc := ImportMainSpec(h, lib, cs).value.0;
      forall i :: 0 <= i < |sc.obj.meshes| ==> MeshHasImages(sc.lib, sc.obj.meshes[i])
  {
    var sc := ImportMainSpec(h, lib, cs).value.0;
    ImagesExact(sc.lib, sc.obj.meshes, 0);
  }

  /** An unknown chunk of an object only adds a warning; the loop goes on with the next. */
  lemma MainUnknownContinues(h: Host, sc: Scene, cs: seq<Chunk>, k: nat, ws: seq<Warning>)
    requires k < |cs| && !MainKnown(cs[k].tag)
    ensures MainChunksFrom(h, sc, cs, k, ws) == MainChunksFrom(h, sc, cs, k + 1, ws + [UnknownChunk(cs[k].tag, Main)])
  {
  }

  /** A root chunk other than MAIN only adds a warning; the loop goes on with the next. */
  lemma RootUnknownContinues(h: Host, lib: Library, cs: seq<Chunk>, k: nat, objs: seq<ObjectData>, ws: seq<Warning>)
    requires k < |cs| && cs[k].tag != ObjectMain
    ensures RootFrom(h, lib, cs, k, objs, ws) == RootFrom(h, lib, cs, k + 1, objs, ws + [UnknownChunk(cs[k].tag, Root)])
  {
  }

  /** Every bone's parent is none or a bone that comes before it. */
  ghost predicate ParentsFirst(bones: seq<Bone>)
  {
    forall i :: 0 <= i < |bones| ==> bones[i].parent == "" || HasBone(bones[..i], bones[i].parent)
  }

  /** The BONES1 loop appends one bone per sub-chunk after the bones already there, and
      since each parent must already exist, parents always come before their children. */
  lemma {:induction false} BonesParentsFirst(bones: seq<Bone>, subs: seq<Chunk>, k: nat, ws: seq<Warning>)
    requires k <= |subs| && ParentsFirst(bones) && BonesFrom(bones, subs, k, ws).Success?
    ensures var r := BonesFrom(bones, subs, k, ws).value;
      ParentsFirst(r.0) && |r.0| == |bones| + (|subs| - k) && r.0[..|bones|] == bones &&
      |ws| <= |r.1| && r.1[..|ws|] == ws
    decreases |subs| - k
  {
    if k < |subs| {
      var bcs := subs[k].data.cs;
      var b := ImportBoneSpec(bcs, bones).value;
      ImportBoneIdentity(bcs, bones);
      var bones2 := bones + [b.0];
      forall i | 0 <= i < |bones2|
        ensures bones2[i].parent == "" || HasBone(bones2[..i], bones2[i].parent)
      {
        if i < |bones| {
          assert bones2[..i] == bones[..i];
        } else {
          assert bones2[..i] == bones;
        }
      }
      BonesParentsFirst(bones2, subs, k + 1, ws + b.1);
      var r := BonesFrom(bones, subs, k, ws).value;
      assert r.0[..|bones2|][..|bones|] == bones;
      assert r.1[..|ws + b.1|][..|ws|] == ws;
    }
  }

  /** Every material a mesh uses exists in the library. */
  ghost predicate MaterialsExist(lib: Library, meshes: seq<MeshState>)
  {
    forall i, n :: 0 <= i < |meshes| && n in meshes[i].materials ==> n in lib.materials
  }

  /** The MESHES loop appends one mesh per sub-chunk and makes its materials exist
      (`materials.get(n)` or `materials.new(n)`); materials already there are not changed,
      and textures and images are not touched. */
  lemma {:induction false} MeshesKeepLibrary(sc: Scene, subs: seq<Chunk>, k: nat, ws: seq<Warning>)
    requires k <= |subs| && MaterialsExist(sc.lib, sc.obj.meshes) && MeshesFrom(sc, subs, k, ws).Success?
    ensures var r := MeshesFrom(sc, subs, k, ws).value.0;
      MaterialsExist(r.lib, r.obj.meshes) &&
      |r.obj.meshes| == |sc.obj.meshes| + (|subs| - k) && r.obj.meshes[..|sc.obj.meshes|] == sc.obj.meshes &&
      (forall n :: n in sc.lib.materials ==> n in r.lib.materials && r.lib.materials[n] == sc.lib.materials[n]) &&
      r.lib.textures == sc.lib.textures && r.lib.cache == sc.lib.cache
    decreases |subs| - k
  {
    if k < |subs| {
      var m := ImportMeshSpec(subs[k].data.cs).value;
      var lib := sc.lib.(materials := AddMaterials(sc.lib.materials, m.0.materials));
      var sc2 := Scene(lib, sc.obj.(meshes := sc.obj.meshes + [m.0]));
      forall i, n | 0 <= i < |sc2.obj.meshes| && n in sc2.obj.meshes[i].materials
        ensures n in lib.materials
      {
        if i < |sc.obj.meshes| {
          assert n in sc.obj.meshes[i].materials;
        }
      }
      MeshesKeepLibrary(sc2, subs, k + 1, ws + m.1);
      var r := MeshesFrom(sc, subs, k, ws).value.0;
      assert r.obj.meshes[..|sc2.obj.meshes|][..|sc.obj.meshes|] == sc.obj.meshes;
    }
  }

  /** SURFACES2 keeps the image cache coherent (each path loaded once, each image the file
      of its path), creates no material and drops no texture or cached image. */
  lemma {:induction false} SurfacesKeepCache(h: Host, lib: Library, fs: seq<Field>, pos: nat, n: nat)
    requires Coherent(h, lib.cache) && SurfacesFrom(h, lib, fs, pos, n).Success?
    ensures var l := SurfacesFrom(h, lib, fs, pos, n).value;
      Coherent(h, l.cache) && l.materials.Keys == lib.materials.Keys &&
      lib.textures.Keys <= l.textures.Keys && lib.cache.images.Keys <= l.cache.images.Keys
    decreases n
  {
    if n > 0 {
      var r := SurfaceRecord(h, lib, fs, pos).value;
      SurfaceRecordKeepsCache(h, lib, fs, pos);
      SurfacesKeepCache(h, r.0, fs, r.1, n - 1);
    }
  }

  lemma SurfaceRecordKeepsCache(h: Host, lib: Library, fs: seq<Field>, pos: nat)
    requires Coherent(h, lib.cache) && SurfaceRecord(h, lib, fs, pos).Success?
    ensures var l := SurfaceRecord(h, lib, fs, pos).value.0;
      Coherent(h, l.cache) && l.materials.Keys == lib.materials.Keys &&
      lib.textures.Keys <= l.textures.Keys && lib.cache.images.Keys <= l.cache.images.Keys
  {
    var n, texture := Text(fs[pos]), Text(fs[pos + 4]);
    if n in lib.materials && texture != "" && texture !in lib.textures {
      CacheKeepsCoherent(h, lib.cache, texture);
    }
  }
}
