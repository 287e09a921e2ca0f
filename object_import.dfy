/** `_import_bone`, `_import_main`, `_import` and `ImportContext` as the code runs them:
    chunk loops over a cursor, packed readers for the fields, and a context object whose
    fields are what the import adds to the host's data. Each method is proved to end in
    the state, with the result, that the matching function of `ObjectBone` or `ObjectMain`
    gives, and to raise the error it gives. */
module ObjectImport {
  import opened Util
  import opened Packed
  import opened Chunks
  import opened ObjectMesh
  import opened MeshImport
  import opened ObjectBone
  import opened ObjectMain

  // ---------------------------------------------------------------------------
  // Bones

  /** `_import_bone`: the start, then the property chunks in order. */
  method ImportBone(cs: seq<Chunk>, bones: seq<Bone>) returns (r: Result<(Bone, seq<Warning>), Error>)
    ensures r == ImportBoneSpec(cs, bones)
  {
    var h := ReadBoneHeader(cs, bones);
    if h.Failure? {
      return Failure(h.error);
    }
    var b, ws := h.value.0, h.value.1;
    var k := 3;
    while k < |cs|
      invariant 3 <= k
      invariant BoneChunksFrom(b, cs, k, ws) == ImportBoneSpec(cs, bones)
      decreases |cs| - k
    {
      var w := ReadBoneChunk(b, cs[k]);
      if w.Failure? {
        return Failure(w.error);
      }
      b, ws := w.value.0, ws + w.value.1;
      k := k + 1;
    }
    r := Success((b, ws));
  }

  /** The version, DEF and BIND_POSE chunks, and the new bone with its parent. */
  method ReadBoneHeader(cs: seq<Chunk>, bones: seq<Bone>) returns (r: Result<(Bone, seq<Warning>), Error>)
    ensures r == BoneHeader(cs, bones)
  {
    var v := CheckVersion(cs, BoneVersion, BoneVersion, BONE_VERSION);
    if v.Failure? {
      return Failure(v.error);
    }
    var dfs := Next(cs[1..], BoneDef);
    if dfs.Failure? {
      return Failure(dfs.error);
    }
    var names := ReadDef(dfs.value);
    if names.Failure? {
      return Failure(names.error);
    }
    r := ReadBonePose(cs, bones, names.value.0, names.value.1, names.value.2);
  }

  /** The name check, the BIND_POSE chunk and the parent lookup. */
  method ReadBonePose(cs: seq<Chunk>, bones: seq<Bone>, name: string, parent: string, vmap: string)
    returns (r: Result<(Bone, seq<Warning>), Error>)
    requires |cs| >= 2
    ensures r == BonePose(cs, bones, name, parent, vmap)
  {
    var ws: seq<Warning> := [];
    if name != vmap {
      ws := [BoneVmapMismatch(name, vmap)];
    }
    var pfs := Next(cs[2..], BoneBindPose);
    if pfs.Failure? {
      return Failure(pfs.error);
    }
    var pr := new Reader(pfs.value);
    var pose := pr.GetLayout(BIND_POSE_LAYOUT);
    if pose.Failure? {
      return Failure(Read(pose.error));
    }
    if parent != "" && !HasBone(bones, parent) {
      return Failure(NoBone(parent));
    }
    r := Success((NewBone(name, parent, vmap, pose.value), ws));
  }

  /** The DEF chunk's three names, read in order. */
  method ReadDef(fs: seq<Field>) returns (r: Result<(string, string, string), Error>)
    ensures r == DefNames(fs)
  {
    var pr := new Reader(fs);
    var n := pr.Get('s');
    if n.Failure? {
      return Failure(Read(n.error));
    }
    var p := pr.Get('s');
    if p.Failure? {
      return Failure(Read(p.error));
    }
    var m := pr.Get('s');
    if m.Failure? {
      return Failure(Read(m.error));
    }
    r := Success((Text(n.value), Text(p.value), Text(m.value)));
  }

  /** One chunk of the bone's loop: a second DEF checks the name, the property chunks read
      their fields, any other chunk is reported. */
  method ReadBoneChunk(b: Bone, c: Chunk) returns (r: Result<(Bone, seq<Warning>), Error>)
    ensures r == BoneChunk(b, c)
  {
    if !BoneKnown(c.tag) {
      return Success((b, [UnknownChunk(c.tag, Location.Bone)]));
    }
    var fs := FieldsOf(c);
    if fs.Failure? {
      return Failure(fs.error);
    }
    var pr := new Reader(fs.value);
    if c.tag == BoneDef {
      var s := pr.Get('s');
      if s.Failure? {
        return Failure(Read(s.error));
      }
      r := Success((b, if b.name != Text(s.value) then [BoneDefMismatch(b.name, Text(s.value))] else []));
    } else {
      var b2 := ReadBoneProperty(b, c.tag, pr);
      if b2.Failure? {
        return Failure(b2.error);
      }
      r := Success((b2.value, []));
    }
  }

  /** The property chunks after the bind pose, each read from a fresh packed reader. */
  method ReadBoneProperty(b: Bone, t: Tag, pr: Reader) returns (r: Result<Bone, Error>)
    requires pr.pos == 0
    modifies pr
    ensures r == BoneProperty(b, t, pr.fs)
  {
    if t == BoneMaterial {
      var s := pr.Get('s');
      if s.Failure? {
        return Failure(Read(s.error));
      }
      r := Success(b.(gamemtl := Text(s.value)));
    } else if t == BoneShape {
      var g := pr.GetLayout(SHAPE_LAYOUT);
      if g.Failure? {
        return Failure(Read(g.error));
      }
      r := Success(b.(shape := g.value));
    } else if t == BoneIKJoint {
      var g := pr.GetLayout(IK_JOINT_LAYOUT);
      if g.Failure? {
        return Failure(Read(g.error));
      }
      r := Success(b.(ikjoint := g.value));
    } else if t == BoneMassParams {
      var g := pr.GetLayout(MASS_LAYOUT);
      if g.Failure? {
        return Failure(Read(g.error));
      }
      r := Success(b.(mass := g.value));
    } else if t == BoneIKFlags {
      var f := pr.Get('I');
      if f.Failure? {
        return Failure(Read(f.error));
      }
      r := Success(b.(ikflags := Num(f.value)));
    } else if t == BoneBreakParams {
      var g := pr.GetLayout(BREAK_LAYOUT);
      if g.Failure? {
        return Failure(Read(g.error));
      }
      r := Success(b.(breakf := g.value));
    } else if t == BoneFriction {
      var f := pr.Get('f');
      if f.Failure? {
        return Failure(Read(f.error));
      }
      r := Success(b.(friction := Real(f.value)));
    } else {
      r := Success(b);
    }
  }

  /** The BONES1 loop: each sub-chunk is one `_import_bone` into the armature so far. */
  method ReadBones(bones: seq<Bone>, subs: seq<Chunk>) returns (r: Result<(seq<Bone>, seq<Warning>), Error>)
    ensures r == BonesFrom(bones, subs, 0, [])
  {
    var arm, ws := bones, [];
    var k := 0;
    while k < |subs|
      invariant k <= |subs|
      invariant BonesFrom(arm, subs, k, ws) == BonesFrom(bones, subs, 0, [])
    {
      var bcs := ChunksOf(subs[k]);
      if bcs.Failure? {
        return Failure(bcs.error);
      }
      var b := ImportBone(bcs.value, arm);
      if b.Failure? {
        return Failure(b.error);
      }
      arm, ws := arm + [b.value.0], ws + b.value.1;
      k := k + 1;
    }
    r := Success((arm, ws));
  }

  // ---------------------------------------------------------------------------
  // PARTITIONS1

  /** `for __ in range(n): pose.bones[pr.gets()].bone_group = bg`. */
  method ReadMembers(pr: Reader, bones: seq<Bone>, grouping: map<nat, nat>, gi: nat, n: nat)
    returns (r: Result<map<nat, nat>, Error>)
    modifies pr
    ensures var v := MembersFrom(bones, grouping, gi, pr.fs, old(pr.pos), n);
      if v.Success? then r == Success(v.value.0) && pr.pos == v.value.1 else r == Failure(v.error)
  {
    ghost var whole := MembersFrom(bones, grouping, gi, pr.fs, pr.pos, n);
    var g: map<nat, nat> := grouping;
    var i := 0;
    while i < n
      invariant i <= n
      invariant MembersFrom(bones, g, gi, pr.fs, pr.pos, n - i) == whole
    {
      var bn := pr.Get('s');
      if bn.Failure? {
        return Failure(Read(bn.error));
      }
      var j := FindBone(bones, Text(bn.value));
      if j.None? {
        return Failure(NoBone(Text(bn.value)));
      }
      g := g[j.value := gi];
      i := i + 1;
    }
    r := Success(g);
  }

  /** The chunks that set fields of the object: TRANSFORM, FLAGS, USERDATA, LOD_REF,
      REVISION, PARTITIONS1 and MOTION_REFS. */
  method ReadObjectFields(obj: ObjectData, t: Tag, fs: seq<Field>) returns (r: Result<ObjectData, Error>)
    ensures r == ObjectFields(obj, t, fs)
  {
    var pr := new Reader(fs);
    if t == ObjectTransform {
      var g := pr.GetLayout(TRANSFORM_LAYOUT);
      r := if g.Failure? then Failure(Read(g.error)) else Success(obj.(transforms := obj.transforms + [g.value]));
    } else if t == ObjectFlags {
      var f := pr.Get('I');
      r := if f.Failure? then Failure(Read(f.error)) else Success(obj.(flags := Num(f.value)));
    } else if t == ObjectUserData {
      var s := pr.Get('s');
      r := if s.Failure? then Failure(Read(s.error)) else Success(obj.(userdata := Text(s.value)));
    } else if t == ObjectLodRef {
      var s := pr.Get('s');
      r := if s.Failure? then Failure(Read(s.error)) else Success(obj.(lodref := Text(s.value)));
    } else if t == ObjectRevision {
      var owner := pr.Get('s');
      if owner.Failure? { return Failure(Read(owner.error)); }
      var ctime := pr.Get('I');
      if ctime.Failure? { return Failure(Read(ctime.error)); }
      var moder := pr.Get('s');
      if moder.Failure? { return Failure(Read(moder.error)); }
      var mtime := pr.Get('I');
      if mtime.Failure? { return Failure(Read(mtime.error)); }
      r := Success(obj.(revision := Revision(Text(owner.value), Num(ctime.value), Text(moder.value), Num(mtime.value))));
    } else if t == ObjectPartitions1 {
      r := ReadPartitions(obj, fs);
    } else if t == ObjectMotionRefs {
      var s := pr.Get('s');
      r := if s.Failure? then Failure(Read(s.error)) else Success(obj.(motionrefs := Text(s.value)));
    } else {
      r := Success(obj);
    }
  }

  /** The PARTITIONS1 chunk: a u32 count of groups, each `pose.group_add()` with a name and
      its members. */
  method ReadPartitions(obj: ObjectData, fs: seq<Field>) returns (r: Result<ObjectData, Error>)
    ensures r == PartitionsChunk(obj, fs)
  {
    if obj.armature.None? {
      return Failure(NoArmature);
    }
    var bones := obj.armature.value;
    var pr := new Reader(fs);
    var c := pr.Get('I');
    if c.Failure? {
      return Failure(Read(c.error));
    }
    ghost var whole := PartitionsFrom(bones, obj.grouping, obj.boneGroups, fs, 1, Num(c.value));
    var grouping, groups := obj.grouping, obj.boneGroups;
    var i := 0;
    while i < Num(c.value)
      invariant i <= Num(c.value)
      invariant PartitionsFrom(bones, grouping, groups, fs, pr.pos, Num(c.value) - i) == whole
    {
      ghost var rec := PartitionRecord(bones, grouping, groups, fs, pr.pos);
      assert rec.Failure? ==> whole == Failure(rec.error);
      assert rec.Success? ==> whole == PartitionsFrom(bones, rec.value.0, rec.value.1, fs, rec.value.2, Num(c.value) - i - 1);
      var name := pr.Get('s');
      if name.Failure? {
        return Failure(Read(name.error));
      }
      var m := pr.Get('I');
      if m.Failure? {
        return Failure(Read(m.error));
      }
      var g := ReadMembers(pr, bones, grouping, |groups|, Num(m.value));
      if g.Failure? {
        return Failure(g.error);
      }
      grouping, groups := g.value, groups + [Text(name.value)];
      i := i + 1;
    }
    r := Success(obj.(grouping := grouping, boneGroups := groups));
  }

  // ---------------------------------------------------------------------------
  // The context

  /** An object handler's result agrees with its specification: the object it returns and
      the library it leaves are the ones the specification gives, or it raises its error. */
  ghost predicate ObjFollows(r: Result<ObjectData, Error>, s: Result<Scene, Error>, lib: Library)
  {
    if s.Success? then r == Success(s.value.obj) && lib == s.value.lib else r == Failure(s.error)
  }

  /** The same, for a handler that also reports warnings. */
  ghost predicate ChunkFollows(r: Result<(ObjectData, seq<Warning>), Error>, s: Result<(Scene, seq<Warning>), Error>, lib: Library)
  {
    if s.Success? then r == Success((s.value.0.obj, s.value.1)) && lib == s.value.0.lib else r == Failure(s.error)
  }

  /** `ImportContext`: the gamedata folder and separator, and what the import has added to
      the host so far: materials, textures and the images it loaded (`self.__images`). */
  class ImportContext {
    const host: Host
    var materials: map<string, Material>
    var textures: map<string, Image>
    var images: map<string, Image>
    var loads: seq<string>

    function Lib(): Library
      reads this
    {
      Library(materials, textures, Cache(images, loads))
    }

    constructor (h: Host, lib: Library)
      ensures host == h && Lib() == lib
    {
      host := h;
      materials, textures := lib.materials, lib.textures;
      images, loads := lib.cache.images, lib.cache.loads;
    }

    /** `ImportContext.image(relpath)`. */
    method CachedImage(relpath: string) returns (img: Image)
      modifies this
      ensures (img, Lib().cache) == CacheImage(host, old(Lib().cache), relpath)
      ensures materials == old(materials) && textures == old(textures)
    {
      var key := NormalizePath(relpath, host.sep);
      if key in images {
        img := images[key];
      } else {
        img := ImageFile(host.gamedata, key);
        images := images[key := img];
        loads := loads + [key];
      }
    }

    /** `bpy.data.textures.get(name)`, or a new one whose image comes from the cache. */
    method Texture(name: string)
      modifies this
      ensures (textures, Lib().cache) == TextureFor(host, old(Lib()), name)
      ensures materials == old(materials)
    {
      if name !in textures {
        var img := CachedImage(name);
        textures := textures[name := img];
      }
    }

    /** `materials.get(n)` or `materials.new(n)` for each material of a mesh. */
    method AddMeshMaterials(names: seq<string>)
      modifies this
      ensures materials == AddMaterials(old(materials), names)
      ensures textures == old(textures) && images == old(images) && loads == old(loads)
    {
      var i := 0;
      while i < |names|
        invariant i <= |names|
        invariant materials == AddMaterials(old(materials), names[..i])
        invariant textures == old(textures) && images == old(images) && loads == old(loads)
      {
        assert names[..i + 1] == names[..i] + [names[i]];
        if names[i] !in materials {
          materials := materials[names[i] := NewMaterial];
        }
        i := i + 1;
      }
      assert names[..i] == names;
    }

    /** The MESHES chunk: each sub-chunk is one `_import_mesh`, whose materials then exist. */
    method ReadMeshes(obj: ObjectData, subs: seq<Chunk>) returns (r: Result<(ObjectData, seq<Warning>), Error>)
      modifies this
      ensures ChunkFollows(r, MeshesFrom(Scene(old(Lib()), obj), subs, 0, []), Lib())
    {
      ghost var whole := MeshesFrom(Scene(Lib(), obj), subs, 0, []);
      var o, ws := obj, [];
      var k := 0;
      while k < |subs|
        invariant k <= |subs|
        invariant MeshesFrom(Scene(Lib(), o), subs, k, ws) == whole
      {
        var mcs := ChunksOf(subs[k]);
        if mcs.Failure? {
          return Failure(mcs.error);
        }
        var m := ImportMesh(mcs.value);
        if m.Failure? {
          return Failure(m.error);
        }
        AddMeshMaterials(m.value.0.materials);
        o, ws := o.(meshes := o.meshes + [m.value.0]), ws + m.value.1;
        k := k + 1;
      }
      r := Success((o, ws));
    }

    /** One SURFACES2 record: six strings and three u32, then the settings of the material
        of that name, if there is one. */
    method ReadSurface(pr: Reader) returns (r: Outcome<Error>)
      modifies this, pr
      ensures var v := SurfaceRecord(host, old(Lib()), pr.fs, old(pr.pos));
        if v.Success? then r == Pass && Lib() == v.value.0 && pr.pos == v.value.1 else r == Fail(v.error)
    {
      var n := pr.Get('s');
      if n.Failure? { return Fail(Read(n.error)); }
      var eshader := pr.Get('s');
      if eshader.Failure? { return Fail(Read(eshader.error)); }
      var cshader := pr.Get('s');
      if cshader.Failure? { return Fail(Read(cshader.error)); }
      var gamemtl := pr.Get('s');
      if gamemtl.Failure? { return Fail(Read(gamemtl.error)); }
      var texture := pr.Get('s');
      if texture.Failure? { return Fail(Read(texture.error)); }
      var vmap := pr.Get('s');
      if vmap.Failure? { return Fail(Read(vmap.error)); }
      var flags := pr.Get('I');
      if flags.Failure? { return Fail(Read(flags.error)); }
      var fvf := pr.Get('I');
      if fvf.Failure? { return Fail(Read(fvf.error)); }
      var unused := pr.Get('I');
      if unused.Failure? { return Fail(Read(unused.error)); }
      Apply(Text(n.value), Text(eshader.value), Text(cshader.value), Text(gamemtl.value),
            Text(texture.value), Text(vmap.value), Num(flags.value));
      r := Pass;
    }

    /** The settings of one surface, on the material of its name. */
    method Apply(n: string, eshader: string, cshader: string, gamemtl: string, texture: string, vmap: string, flags: nat)
      modifies this
      ensures Lib() == ApplySurface(host, old(Lib()), n, eshader, cshader, gamemtl, texture, vmap, flags)
    {
      if n !in materials {
        return;
      }
      var m := materials[n].(flags := flags, eshader := eshader, cshader := cshader, gamemtl := gamemtl);
      if texture != "" {
        Texture(texture);
        m := m.(slots := m.slots + [TextureSlot(texture, vmap)]);
      }
      materials := materials[n := m];
    }

    /** The SURFACES2 chunk: a u32 count of surface records. */
    method ReadSurfaces(fs: seq<Field>) returns (r: Outcome<Error>)
      modifies this
      ensures var v := SurfacesChunk(host, old(Lib()), fs);
        if v.Success? then r == Pass && Lib() == v.value else r == Fail(v.error)
    {
      var pr := new Reader(fs);
      var c := pr.Get('I');
      if c.Failure? {
        return Fail(Read(c.error));
      }
      ghost var whole := SurfacesFrom(host, Lib(), fs, 1, Num(c.value));
      var i := 0;
      while i < Num(c.value)
        invariant i <= Num(c.value)
        invariant SurfacesFrom(host, Lib(), fs, pr.pos, Num(c.value) - i) == whole
      {
        ghost var rec := SurfaceRecord(host, Lib(), fs, pr.pos);
        assert rec.Failure? ==> whole == Failure(rec.error);
        assert rec.Success? ==> whole == SurfacesFrom(host, rec.value.0, fs, rec.value.1, Num(c.value) - i - 1);
        var o := ReadSurface(pr);
        if o.Fail? {
          return o;
        }
        i := i + 1;
      }
      r := Pass;
    }

    /** The object chunks that hold packed fields, each read from a fresh packed reader. */
    method ReadMainFields(obj: ObjectData, t: Tag, fs: seq<Field>) returns (r: Result<ObjectData, Error>)
      modifies this
      ensures ObjFollows(r, MainFields(host, Scene(old(Lib()), obj), t, fs), Lib())
    {
      if t == ObjectSurfaces2 {
        var o := ReadSurfaces(fs);
        r := if o.Fail? then Failure(o.error) else Success(obj);
      } else {
        r := ReadObjectFields(obj, t, fs);
      }
    }

    /** One chunk of the object loop: MESHES and BONES1 hold sub-chunks, the others fields;
        an unknown chunk is reported. */
    method ReadMainChunk(obj: ObjectData, c: Chunk) returns (r: Result<(ObjectData, seq<Warning>), Error>)
      modifies this
      ensures ChunkFollows(r, MainChunk(host, Scene(old(Lib()), obj), c), Lib())
    {
      if !MainKnown(c.tag) {
        return Success((obj, [UnknownChunk(c.tag, Main)]));
      }
      if c.tag == ObjectMeshes {
        var subs := ChunksOf(c);
        if subs.Failure? {
          return Failure(subs.error);
        }
        r := ReadMeshes(obj, subs.value);
      } else if c.tag == ObjectBones1 {
        var subs := ChunksOf(c);
        if subs.Failure? {
          return Failure(subs.error);
        }
        var bones := if obj.armature.Some? then obj.armature.value else [];
        var b := ReadBones(bones, subs.value);
        if b.Failure? {
          return Failure(b.error);
        }
        r := Success((obj.(armature := Some(b.value.0)), b.value.1));
      } else {
        var fs := FieldsOf(c);
        if fs.Failure? {
          return Failure(fs.error);
        }
        var o := ReadMainFields(obj, c.tag, fs.value);
        r := if o.Failure? then Failure(o.error) else Success((o.value, []));
      }
    }

    /** `_import_main`: the exact version check, then every later chunk in order over a new
        object. */
    method ImportMain(cs: seq<Chunk>) returns (r: Result<(ObjectData, seq<Warning>), Error>)
      modifies this
      ensures ChunkFollows(r, ImportMainSpec(host, old(Lib()), cs), Lib())
    {
      var v := CheckVersion(cs, ObjectVersion, ObjectVersion, OBJECT_VERSION);
      if v.Failure? {
        return Failure(v.error);
      }
      var obj, ws := NewObject, [];
      ghost var whole := MainChunksFrom(host, Scene(Lib(), obj), cs, 1, ws);
      var k := 1;
      while k < |cs|
        invariant 1 <= k <= |cs|
        invariant MainChunksFrom(host, Scene(Lib(), obj), cs, k, ws) == whole
      {
        var w := ReadMainChunk(obj, cs[k]);
        if w.Failure? {
          return Failure(w.error);
        }
        obj, ws := w.value.0, ws + w.value.1;
        k := k + 1;
      }
      var im := AssignImages(obj.meshes);
      r := if im.Fail? then Failure(im.error) else Success((obj, ws));
    }

    /** The closing loop of `_import_main`: every polygon of every mesh takes the image of
        its material's active texture. */
    method AssignImages(meshes: seq<MeshState>) returns (r: Outcome<Error>)
      ensures r == ImagesFrom(Lib(), meshes, 0)
    {
      var k := 0;
      while k < |meshes|
        invariant k <= |meshes|
        invariant ImagesFrom(Lib(), meshes, k) == ImagesFrom(Lib(), meshes, 0)
      {
        r := SetMeshImages(meshes[k]);
        if r.Fail? {
          return;
        }
        k := k + 1;
      }
      r := Pass;
    }

    /** One mesh: `uv_textures[0]`, then each polygon's `materials[p.material_index]` and
        its `active_texture.image`. */
    method SetMeshImages(m: MeshState) returns (r: Outcome<Error>)
      ensures r == MeshImages(Lib(), m)
    {
      if m.uvs == map[] {
        return Fail(NoUVLayer);
      }
      var fi := 0;
      while fi < |m.faces|
        invariant fi <= |m.faces|
        invariant PolygonImagesFrom(Lib(), m, fi) == PolygonImagesFrom(Lib(), m, 0)
      {
        if m.faces[fi].Some? {
          var f := m.faces[fi].value;
          if f.material >= |m.materials| {
            return Fail(NoMaterial(f.material));
          }
          var bmat := m.materials[f.material];
          if bmat !in materials || materials[bmat].slots == [] {
            return Fail(NoTexture(bmat));
          }
        }
        fi := fi + 1;
      }
      r := Pass;
    }

    /** `_import`: every MAIN chunk of the file is an object; the others are reported. */
    method ImportFile(cs: seq<Chunk>) returns (r: Result<(seq<ObjectData>, seq<Warning>), Error>)
      modifies this
      ensures var s := ImportSpec(host, old(Lib()), cs);
        if s.Success? then r == Success((s.value.1, s.value.2)) && Lib() == s.value.0 else r == Failure(s.error)
    {
      var objs, ws := [], [];
      ghost var whole := ImportSpec(host, Lib(), cs);
      var k := 0;
      while k < |cs|
        invariant k <= |cs|
        invariant RootFrom(host, Lib(), cs, k, objs, ws) == whole
      {
        var e;
        e, objs, ws := ImportRootChunk(cs, k, objs, ws, whole);
        if e.Some? {
          return Failure(e.value);
        }
        k := k + 1;
      }
      r := Success((objs, ws));
    }

    /** One root chunk: a MAIN chunk is imported as an object, any other is reported. */
    method ImportRootChunk(cs: seq<Chunk>, k: nat, objs0: seq<ObjectData>, ws0: seq<Warning>,
                           ghost whole: Result<(Library, seq<ObjectData>, seq<Warning>), Error>)
      returns (e: Option<Error>, objs: seq<ObjectData>, ws: seq<Warning>)
      requires k < |cs| && RootFrom(host, Lib(), cs, k, objs0, ws0) == whole
      modifies this
      ensures e.Some? ==> whole == Failure(e.value)
      ensures e.None? ==> RootFrom(host, Lib(), cs, k + 1, objs, ws) == whole
    {
      e, objs, ws := None, objs0, ws0;
      if cs[k].tag != ObjectMain {
        ws := ws + [UnknownChunk(cs[k].tag, Root)];
      } else {
        var sub := ChunksOf(cs[k]);
        if sub.Failure? {
          return Some(sub.error), objs, ws;
        }
        var m := ImportMain(sub.value);
        if m.Failure? {
          return Some(m.error), objs, ws;
        }
        objs, ws := objs + [m.value.0], ws + m.value.1;
      }
    }
  }
}
