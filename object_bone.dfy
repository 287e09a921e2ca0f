/** The bone records of an .object file (`_import_bone`): the version, the definition with
    its name, parent and vertex-map name, the bind pose, and the optional property chunks
    that follow. A bone joins the armature after the bones imported before it; its parent,
    when it names one, must be among them. */
module ObjectBone {
  import opened Util
  import opened Packed
  import opened Chunks

  const BONE_VERSION := 0x2

  /** An armature bone and its X-Ray properties. Each property group holds the values read
      by one `getf` call of its layout, in order. */
  datatype Bone = Bone(
    name: string,
    parent: string,
    vmap: string,
    bindPose: seq<seq<Field>>,   // offset 'fff', rotate 'fff', length 'f'
    gamemtl: string,
    shape: seq<seq<Field>>,      // SHAPE_LAYOUT
    ikjoint: seq<seq<Field>>,    // IK_JOINT_LAYOUT
    mass: seq<seq<Field>>,       // MASS_LAYOUT
    ikflags: nat,
    breakf: seq<seq<Field>>,     // BREAK_LAYOUT
    friction: real)

  const BIND_POSE_LAYOUT: Layout := [('f', 3), ('f', 3), ('f', 1)]
  /** type, flags, box_rot, box_trn, box_hsz, sph_pos, sph_rad, cyl_pos, cyl_dir, cyl_hgh, cyl_rad */
  const SHAPE_LAYOUT: Layout := [('H', 1), ('H', 1), ('f', 9), ('f', 3), ('f', 3), ('f', 3), ('f', 1), ('f', 3), ('f', 3), ('f', 1), ('f', 1)]
  /** type, limits, lim_spr, lim_dmp, spring, damping */
  const IK_JOINT_LAYOUT: Layout := [('I', 1), ('f', 3), ('f', 1), ('f', 1), ('f', 1), ('f', 1)]
  /** value, center */
  const MASS_LAYOUT: Layout := [('f', 1), ('f', 3)]
  /** force, torque */
  const BREAK_LAYOUT: Layout := [('f', 1), ('f', 1)]

  /** The new bone before its property chunks: `edit_bones.new(name=name)`. */
  function NewBone(name: string, parent: string, vmap: string, pose: seq<seq<Field>>): Bone
  {
    Bone.Bone(name, parent, vmap, pose, "", [], [], [], 0, [], 0.0)
  }

  /** A bone named `name` is already in the armature. */
  predicate HasBone(bones: seq<Bone>, name: string)
  {
    exists i :: 0 <= i < |bones| && bones[i].name == name
  }

  /** The tags the loop after the bind pose reads; any other tag is unknown there. */
  predicate BoneKnown(t: Tag)
  {
    t in {BoneDef, BoneMaterial, BoneShape, BoneIKJoint, BoneMassParams, BoneIKFlags, BoneBreakParams, BoneFriction}
  }

  /** One chunk of the loop: the bone after it and the warnings it reports. */
  function BoneChunk(b: Bone, c: Chunk): Result<(Bone, seq<Warning>), Error>
  {
    if !BoneKnown(c.tag) then Success((b, [UnknownChunk(c.tag, Location.Bone)]))
    else
      var fs :- FieldsOf(c);
      if c.tag == BoneDef then
        var s :- LiftRead(GetAt(fs, 0, 's'));
        Success((b, if b.name != Text(s) then [BoneDefMismatch(b.name, Text(s))] else []))
      else
        var b2 :- BoneProperty(b, c.tag, fs);
        Success((b2, []))
  }

  /** The property chunks: each reads its layout into its property. */
  function BoneProperty(b: Bone, t: Tag, fs: seq<Field>): Result<Bone, Error>
  {
    if t == BoneMaterial then
      var s :- LiftRead(GetAt(fs, 0, 's'));
      Success(b.(gamemtl := Text(s)))
    else if t == BoneShape then
      var g :- LiftRead(GroupsFrom([], fs, 0, SHAPE_LAYOUT));
      Success(b.(shape := g))
    else if t == BoneIKJoint then
      var g :- LiftRead(GroupsFrom([], fs, 0, IK_JOINT_LAYOUT));
      Success(b.(ikjoint := g))
    else if t == BoneMassParams then
      var g :- LiftRead(GroupsFrom([], fs, 0, MASS_LAYOUT));
      Success(b.(mass := g))
    else if t == BoneIKFlags then
      var f :- LiftRead(GetAt(fs, 0, 'I'));
      Success(b.(ikflags := Num(f)))
    else if t == BoneBreakParams then
      var g :- LiftRead(GroupsFrom([], fs, 0, BREAK_LAYOUT));
      Success(b.(breakf := g))
    else if t == BoneFriction then
      var f :- LiftRead(GetAt(fs, 0, 'f'));
      Success(b.(friction := Real(f)))
    else Success(b)
  }

  /** The loop from chunk `k` on. */
  function BoneChunksFrom(b: Bone, cs: seq<Chunk>, k: nat, ws: seq<Warning>): Result<(Bone, seq<Warning>), Error>
    decreases |cs| - k
  {
    if k >= |cs| then Success((b, ws))
    else
      var r :- BoneChunk(b, cs[k]);
      BoneChunksFrom(r.0, cs, k + 1, ws + r.1)
  }

  /** The start of `_import_bone` into an armature that holds `bones`: the version
      (exactly 0x2), the DEF chunk (a name that differs from the vertex-map name is
      reported), the BIND_POSE chunk and the parent lookup; the new bone and the warnings. */
  function BoneHeader(cs: seq<Chunk>, bones: seq<Bone>): Result<(Bone, seq<Warning>), Error>
  {
    var _ :- CheckVersion(cs, BoneVersion, BoneVersion, BONE_VERSION);
    var dfs :- Next(cs[1..], BoneDef);
    var names :- DefNames(dfs);
    BonePose(cs, bones, names.0, names.1, names.2)
  }

  /** After the DEF chunk: the name check, the BIND_POSE chunk and the parent lookup. */
  function BonePose(cs: seq<Chunk>, bones: seq<Bone>, name: string, parent: string, vmap: string)
    : Result<(Bone, seq<Warning>), Error>
    requires |cs| >= 2
  {
    var ws := if name != vmap then [BoneVmapMismatch(name, vmap)] else [];
    var pfs :- Next(cs[2..], BoneBindPose);
    var pose :- LiftRead(GroupsFrom([], pfs, 0, BIND_POSE_LAYOUT));
    if parent != "" && !HasBone(bones, parent) then Failure(NoBone(parent))
    else Success((NewBone(name, parent, vmap, pose), ws))
  }

  /** The DEF chunk: the bone's name, its parent's name and its vertex-map name. */
  function DefNames(fs: seq<Field>): Result<(string, string, string), Error>
  {
    var n :- LiftRead(GetAt(fs, 0, 's'));
    var p :- LiftRead(GetAt(fs, 1, 's'));
    var m :- LiftRead(GetAt(fs, 2, 's'));
    Success((Text(n), Text(p), Text(m)))
  }

  /** `_import_bone`: the start, then the loop from the fourth chunk on. */
  function ImportBoneSpec(cs: seq<Chunk>, bones: seq<Bone>): Result<(Bone, seq<Warning>), Error>
  {
    var h :- BoneHeader(cs, bones);
    BoneChunksFrom(h.0, cs, 3, h.1)
  }

  /** A warning the loop after the bind pose may add for the bone `name`: an unknown chunk
      in a bone, or a second DEF naming another bone. */
  predicate BoneLoopWarning(name: string, w: Warning)
  {
    (w.UnknownChunk? && w.location == Location.Bone) || (w.BoneDefMismatch? && w.bone == name)
  }

  /** The loop never changes the bone's name, parent, vertex-map name or bind pose, and only
      appends warnings about unknown chunks and differing DEF names. */
  lemma {:induction false} BoneChunksKeep(b: Bone, cs: seq<Chunk>, k: nat, ws: seq<Warning>)
    requires BoneChunksFrom(b, cs, k, ws).Success?
    ensures var r := BoneChunksFrom(b, cs, k, ws).value;
      r.0.name == b.name && r.0.parent == b.parent && r.0.vmap == b.vmap && r.0.bindPose == b.bindPose &&
      |ws| <= |r.1| && r.1[..|ws|] == ws &&
      forall i :: |ws| <= i < |r.1| ==> BoneLoopWarning(b.name, r.1[i])
    decreases |cs| - k
  {
    if k < |cs| {
      var c := BoneChunk(b, cs[k]).value;
      BoneChunkKeeps(b, cs[k]);
      var r := BoneChunksFrom(c.0, cs, k + 1, ws + c.1);
      assert BoneChunksFrom(b, cs, k, ws) == r;
      BoneChunksKeep(c.0, cs, k + 1, ws + c.1);
      WarningsExtend(b.name, ws, c.1, r.value.1);
    }
  }

  /** One chunk of the loop keeps the bone's name, parent, vertex-map name and bind pose,
      and reports only loop warnings. */
  lemma BoneChunkKeeps(b: Bone, c: Chunk)
    requires BoneChunk(b, c).Success?
    ensures var r := BoneChunk(b, c).value;
      r.0.name == b.name && r.0.parent == b.parent && r.0.vmap == b.vmap && r.0.bindPose == b.bindPose &&
      forall i :: 0 <= i < |r.1| ==> BoneLoopWarning(b.name, r.1[i])
  {
  }

  /** Warnings `c` appended after `ws`, then more: `ws` stays a prefix and every later one
      is a loop warning. */
  lemma WarningsExtend(name: string, ws: seq<Warning>, c: seq<Warning>, r: seq<Warning>)
    requires |ws + c| <= |r| && r[..|ws + c|] == ws + c
    requires forall i :: 0 <= i < |c| ==> BoneLoopWarning(name, c[i])
    requires forall i :: |ws + c| <= i < |r| ==> BoneLoopWarning(name, r[i])
    ensures |ws| <= |r| && r[..|ws|] == ws
    ensures forall i :: |ws| <= i < |r| ==> BoneLoopWarning(name, r[i])
  {
    assert r[..|ws + c|][..|ws|] == ws;
    forall i | |ws| <= i < |r|
      ensures BoneLoopWarning(name, r[i])
    {
      if i < |ws + c| {
        assert r[i] == r[..|ws + c|][i] == c[i - |ws|];
      }
    }
  }

  /** An unknown chunk in a bone only adds a warning; the loop goes on with the next one. */
  lemma BoneUnknownContinues(b: Bone, cs: seq<Chunk>, k: nat, ws: seq<Warning>)
    requires k < |cs| && !BoneKnown(cs[k].tag)
    ensures BoneChunksFrom(b, cs, k, ws) == BoneChunksFrom(b, cs, k + 1, ws + [UnknownChunk(cs[k].tag, Location.Bone)])
  {
  }

  /** A bone is imported only when its version word is 0x2; with any other word it is
      refused with that word. */
  lemma BoneVersionExact(cs: seq<Chunk>, bones: seq<Bone>, v: nat)
    ensures ImportBoneSpec(cs, bones).Success? ==>
      cs[0].tag == BoneVersion && cs[0].data.Packed? && |cs[0].data.fs| > 0 && cs[0].data.fs[0] == U16(BONE_VERSION)
    ensures (|cs| > 0 && cs[0].tag == BoneVersion && cs[0].data.Packed? && |cs[0].data.fs| > 0 &&
             cs[0].data.fs[0] == U16(v) && v != BONE_VERSION && v < U16_LIMIT) ==>
      ImportBoneSpec(cs, bones) == Failure(BadVersion(BoneVersion, v))
  {
    CheckVersionExact(cs, BoneVersion, BoneVersion, BONE_VERSION);
  }

  /** An imported bone has the name, parent and vertex-map name of its DEF chunk (the second
      chunk) and the bind pose of its BIND_POSE chunk (the third); its parent is none or a
      bone imported before it. */
  lemma ImportBoneIdentity(cs: seq<Chunk>, bones: seq<Bone>)
    requires ImportBoneSpec(cs, bones).Success?
    ensures |cs| >= 3 && cs[1].tag == BoneDef && cs[1].data.Packed? && |cs[1].data.fs| >= 3 &&
      cs[2].tag == BoneBindPose && cs[2].data.Packed?
    ensures var b := ImportBoneSpec(cs, bones).value.0; var def := cs[1].data.fs;
      b.name == Text(def[0]) && b.parent == Text(def[1]) && b.vmap == Text(def[2]) &&
      b.bindPose == GroupsFrom([], cs[2].data.fs, 0, BIND_POSE_LAYOUT).value &&
      (b.parent == "" || HasBone(bones, b.parent))
  {
    var h := BoneHeader(cs, bones).value;
    BoneHeaderFields(cs, bones);
    BoneChunksKeep(h.0, cs, 3, h.1);
  }

  lemma BoneHeaderFields(cs: seq<Chunk>, bones: seq<Bone>)
    requires BoneHeader(cs, bones).Success?
    ensures |cs| >= 3 && cs[1].tag == BoneDef && cs[1].data.Packed? && |cs[1].data.fs| >= 3 &&
      cs[2].tag == BoneBindPose && cs[2].data.Packed?
    ensures var b := BoneHeader(cs, bones).value.0; var def := cs[1].data.fs;
      b.name == Text(def[0]) && b.parent == Text(def[1]) && b.vmap == Text(def[2]) &&
      b.bindPose == GroupsFrom([], cs[2].data.fs, 0, BIND_POSE_LAYOUT).value &&
      (b.parent == "" || HasBone(bones, b.parent))
  {
  }

  /** A bone whose name differs from its vertex-map name is reported first; otherwise no
      such report is made. */
  lemma ImportBoneVmapWarning(cs: seq<Chunk>, bones: seq<Bone>)
    requires ImportBoneSpec(cs, bones).Success?
    ensures var (b, ws) := ImportBoneSpec(cs, bones).value;
      (b.name != b.vmap ==> |ws| > 0 && ws[0] == BoneVmapMismatch(b.name, b.vmap)) &&
      (b.name == b.vmap ==> forall i :: 0 <= i < |ws| ==> !ws[i].BoneVmapMismatch?)
  {
    var h := BoneHeader(cs, bones).value;
    BoneHeaderWarning(cs, bones);
    BoneChunksKeep(h.0, cs, 3, h.1);
    var (b, ws) := ImportBoneSpec(cs, bones).value;
    if b.name != b.vmap {
      assert ws[..|h.1|][0] == ws[0];
    } else {
      forall i | 0 <= i < |ws|
        ensures !ws[i].BoneVmapMismatch?
      {
        assert BoneLoopWarning(b.name, ws[i]);
      }
    }
  }

  lemma BoneHeaderWarning(cs: seq<Chunk>, bones: seq<Bone>)
    requires BoneHeader(cs, bones).Success?
    ensures var (b, ws) := BoneHeader(cs, bones).value;
      ws == if b.name != b.vmap then [BoneVmapMismatch(b.name, b.vmap)] else []
  {
  }
}
