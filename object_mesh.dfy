/** The mesh records of an .object file (`_import_mesh`): vertices, faces that keep one
    slot per declared face, smoothing groups turned into seams, per-face materials, and the
    vertex maps (UV layers and bone weights). The mesh under construction stands for the
    bmesh and the mesh object; faces are triangles or polygons over vertex indices. */
module ObjectMesh {
  import opened Util
  import opened Packed
  import opened Chunks

  type Vec3 = (real, real, real)
  type UV = (real, real)

  /** A bmesh face: its vertices in loop order, the smooth flag and the material index. */
  datatype Face = Face(verts: seq<nat>, smooth: bool, material: nat)

  /** An undirected edge between two vertex indices, `lo <= hi`. */
  datatype Edge = Edge(lo: nat, hi: nat)

  /** Loop (corner) `corner` of face slot `face`. */
  datatype Loop = Loop(face: nat, corner: nat)

  /** What the import has built so far. `seams` holds the edges marked seam (the same edges
      are the ones marked not smooth); `uvs` maps a UV layer name to the UV of each loop it
      sets; `weights[vi][g]` is the weight of vertex `vi` in vertex group `g`. */
  datatype MeshState = MeshState(
    name: string,
    verts: seq<Vec3>,
    faces: seq<Option<Face>>,
    seams: set<Edge>,
    materials: seq<string>,
    uvs: map<string, map<Loop, UV>>,
    groups: seq<string>,
    weights: map<nat, map<nat, real>>,
    flags: nat,
    options: seq<Field>)

  const EmptyMesh := MeshState("tmp", [], [], {}, [], map[], [], map[], 0, [])

  const MESH_VERSION := 0x11

  /** The numbers of integer fields. */
  function Nums(fs: seq<Field>): (r: seq<nat>)
    ensures |r| == |fs| && forall k :: 0 <= k < |fs| ==> r[k] == Num(fs[k])
  {
    seq(|fs|, k requires 0 <= k < |fs| => Num(fs[k]))
  }

  // ---------------------------------------------------------------------------
  // VERTS

  function Vec3Of(v: seq<Field>): Vec3
    requires |v| == 3
  {
    (Real(v[0]), Real(v[1]), Real(v[2]))
  }

  /** `n` more `bm.verts.new(pr.getf('fff'))` from `pos`. */
  function VertsFrom(verts: seq<Vec3>, fs: seq<Field>, pos: nat, n: nat): Result<seq<Vec3>, Error>
    decreases n
  {
    if n == 0 then Success(verts)
    else
      var v :- LiftRead(GetManyAt(fs, pos, 'f', 3));
      VertsFrom(verts + [Vec3Of(v)], fs, pos + 3, n - 1)
  }

  /** The vertex list grows by exactly the declared count, in file order. */
  lemma {:induction false} VertsAppend(verts: seq<Vec3>, fs: seq<Field>, pos: nat, n: nat)
    requires VertsFrom(verts, fs, pos, n).Success?
    ensures n > 0 ==> pos + 3 * n <= |fs|
    ensures var r := VertsFrom(verts, fs, pos, n).value;
      |r| == |verts| + n && r[..|verts|] == verts &&
      forall k :: 0 <= k < n ==> r[|verts| + k] == Vec3Of(fs[pos + 3 * k..pos + 3 * k + 3])
    decreases n
  {
    if n > 0 {
      var v := GetManyAt(fs, pos, 'f', 3).value;
      assert v == fs[pos..pos + 3];
      VertsAppend(verts + [Vec3Of(v)], fs, pos + 3, n - 1);
      var r := VertsFrom(verts, fs, pos, n).value;
      forall k | 0 < k < n
        ensures r[|verts| + k] == Vec3Of(fs[pos + 3 * k..pos + 3 * k + 3])
      {
        assert |verts| + k == |verts + [Vec3Of(v)]| + (k - 1);
        assert pos + 3 + 3 * (k - 1) == pos + 3 * k;
      }
    }
  }

  // ---------------------------------------------------------------------------
  // FACES

  /** The first vertex index that does not name a vertex, if any. */
  function FirstMissing(vs: seq<nat>, nverts: nat): (r: Option<nat>)
    ensures r.None? <==> forall k :: 0 <= k < |vs| ==> vs[k] < nverts
    ensures r.Some? ==> r.value in vs && r.value >= nverts
  {
    if vs == [] then None
    else if vs[0] >= nverts then Some(vs[0])
    else FirstMissing(vs[1..], nverts)
  }

  function Members(vs: seq<nat>): set<nat>
  {
    set k | k in vs
  }

  /** A face over exactly the vertices `vs` is already in `faces`. */
  predicate FaceExists(faces: seq<Option<Face>>, vs: seq<nat>)
  {
    exists i :: 0 <= i < |faces| && faces[i].Some? && Members(faces[i].value.verts) == Members(vs)
  }

  /** `bm.faces.new([bm.verts[vi] for vi in vs])` inside `try ... except ValueError`: an index
      that names no vertex raises (IndexError is not caught); a vertex used twice, or a face
      that already exists, makes the ValueError that leaves the slot empty. */
  function BuildFace(nverts: nat, faces: seq<Option<Face>>, vs: seq<nat>): (r: Result<Option<Face>, Error>)
    ensures r.Failure? <==> exists k :: 0 <= k < |vs| && vs[k] >= nverts
    ensures r.Success? && r.value.Some? ==> r.value.value == Face(vs, false, 0)
    ensures r.Success? ==> (r.value.None? <==> !Distinct(vs) || FaceExists(faces, vs))
  {
    match FirstMissing(vs, nverts)
    case Some(vi) => Failure(NoVertex(vi))
    case None => if !Distinct(vs) || FaceExists(faces, vs) then Success(None) else Success(Some(Face(vs, false, 0)))
  }

  /** The vertex indices of a FACES record: `fr[::2]` of six u32 (the odd ones are vertex-map
      references). */
  function FaceVerts(fr: seq<Field>): seq<nat>
    requires |fr| == 6
  {
    [Num(fr[0]), Num(fr[2]), Num(fr[4])]
  }

  /** `n` more face records from `pos`, each appending one slot. */
  function FacesFrom(nverts: nat, faces: seq<Option<Face>>, fs: seq<Field>, pos: nat, n: nat)
    : Result<seq<Option<Face>>, Error>
    decreases n
  {
    if n == 0 then Success(faces)
    else
      var fr :- LiftRead(GetManyAt(fs, pos, 'I', 6));
      var face :- BuildFace(nverts, faces, FaceVerts(fr));
      FacesFrom(nverts, faces + [face], fs, pos + 6, n - 1)
  }

  /** One slot per declared face: slot `|faces| + k` belongs to record `k`, and holds either
      nothing or the face over that record's vertices. */
  lemma {:induction false} FacesKeepSlots(nverts: nat, faces: seq<Option<Face>>, fs: seq<Field>, pos: nat, n: nat)
    requires FacesFrom(nverts, faces, fs, pos, n).Success?
    ensures n > 0 ==> pos + 6 * n <= |fs|
    ensures var r := FacesFrom(nverts, faces, fs, pos, n).value;
      |r| == |faces| + n && r[..|faces|] == faces &&
      forall k :: 0 <= k < n ==>
        r[|faces| + k].Some? ==> r[|faces| + k].value == Face(FaceVerts(fs[pos + 6 * k..pos + 6 * k + 6]), false, 0)
    decreases n
  {
    if n > 0 {
      var fr := GetManyAt(fs, pos, 'I', 6).value;
      assert fr == fs[pos..pos + 6];
      var face := BuildFace(nverts, faces, FaceVerts(fr)).value;
      var rest := FacesFrom(nverts, faces + [face], fs, pos + 6, n - 1);
      assert FacesFrom(nverts, faces, fs, pos, n) == rest;
      FacesKeepSlots(nverts, faces + [face], fs, pos + 6, n - 1);
      SlotsShift(faces, face, rest.value, fs, pos, n);
    }
  }

  /** The slots after record 0 are those the rest of the loop lays out from `pos + 6`. */
  lemma SlotsShift(faces: seq<Option<Face>>, face: Option<Face>, r: seq<Option<Face>>, fs: seq<Field>, pos: nat, n: nat)
    requires n > 0 && pos + 6 <= |fs| && (n - 1 > 0 ==> pos + 6 + 6 * (n - 1) <= |fs|)
    requires face.Some? ==> face.value == Face(FaceVerts(fs[pos..pos + 6]), false, 0)
    requires |r| == |faces + [face]| + (n - 1) && r[..|faces + [face]|] == faces + [face]
    requires forall k :: 0 <= k < n - 1 ==>
      r[|faces + [face]| + k].Some? ==> r[|faces + [face]| + k].value == Face(FaceVerts(fs[pos + 6 + 6 * k..pos + 6 + 6 * k + 6]), false, 0)
    ensures pos + 6 * n <= |fs|
    ensures |r| == |faces| + n && r[..|faces|] == faces
    ensures forall k :: 0 <= k < n ==>
      r[|faces| + k].Some? ==> r[|faces| + k].value == Face(FaceVerts(fs[pos + 6 * k..pos + 6 * k + 6]), false, 0)
  {
    assert r[..|faces|] == (faces + [face])[..|faces|];
    assert r[|faces|] == (faces + [face])[|faces|];
    forall k | 0 < k < n
      ensures r[|faces| + k].Some? ==> r[|faces| + k].value == Face(FaceVerts(fs[pos + 6 * k..pos + 6 * k + 6]), false, 0)
    {
      assert |faces| + k == |faces + [face]| + (k - 1);
      assert pos + 6 + 6 * (k - 1) == pos + 6 * k;
    }
  }

  /** A face that cannot be built never aborts the chunk: when every record can be read and
      every index names a vertex, the chunk is read whatever the faces are. */
  lemma {:induction false} FacesNeverAbort(nverts: nat, faces: seq<Option<Face>>, fs: seq<Field>, pos: nat, n: nat)
    requires pos + 6 * n <= |fs|
    requires forall k :: pos <= k < pos + 6 * n ==> Fits(fs[k], 'I') && Num(fs[k]) < nverts
    ensures FacesFrom(nverts, faces, fs, pos, n).Success?
    decreases n
  {
    if n > 0 {
      var fr := GetManyAt(fs, pos, 'I', 6).value;
      assert forall k :: 0 <= k < 6 ==> fr[k] == fs[pos + k];
      var face := BuildFace(nverts, faces, FaceVerts(fr)).value;
      FacesNeverAbort(nverts, faces + [face], fs, pos + 6, n - 1);
    }
  }

  // ---------------------------------------------------------------------------
  // SG: smoothing groups

  function EdgeOf(u: nat, v: nat): Edge
  {
    if u <= v then Edge(u, v) else Edge(v, u)
  }

  /** `bmf.edges`: the edge from each loop's vertex to the next one's. */
  function FaceEdges(vs: seq<nat>): (r: seq<Edge>)
    ensures |r| == |vs|
  {
    seq(|vs|, i requires 0 <= i < |vs| => EdgeOf(vs[i], vs[(i + 1) % |vs|]))
  }

  /** The pass over the edges of one face of group `sg`: an edge seen for the first time
      records `sg`; an edge recorded with another group records `sg` and becomes a seam. */
  function MarkEdges(edict: map<Edge, nat>, seams: set<Edge>, es: seq<Edge>, sg: nat): (map<Edge, nat>, set<Edge>)
    decreases |es|
  {
    if es == [] then (edict, seams)
    else if es[0] !in edict then MarkEdges(edict[es[0] := sg], seams, es[1..], sg)
    else if edict[es[0]] != sg then MarkEdges(edict[es[0] := sg], seams + {es[0]}, es[1..], sg)
    else MarkEdges(edict, seams, es[1..], sg)
  }

  /** After a face of group `sg`, its edges record `sg`, other records stay, and the new seams
      are exactly its edges recorded with another group. */
  lemma {:induction false} MarkEdgesEffect(edict: map<Edge, nat>, seams: set<Edge>, es: seq<Edge>, sg: nat)
    ensures var (ed, sm) := MarkEdges(edict, seams, es, sg);
      (forall e :: e in es ==> e in ed && ed[e] == sg) &&
      (forall e :: e !in es ==> (e in ed <==> e in edict) && (e in edict ==> ed[e] == edict[e])) &&
      (forall e :: e in sm <==> e in seams || (e in es && e in edict && edict[e] != sg))
    decreases |es|
  {
    if es != [] {
      var e0 := es[0];
      if e0 !in edict {
        MarkEdgesEffect(edict[e0 := sg], seams, es[1..], sg);
      } else if edict[e0] != sg {
        MarkEdgesEffect(edict[e0 := sg], seams + {e0}, es[1..], sg);
      } else {
        MarkEdgesEffect(edict, seams, es[1..], sg);
      }
      assert forall e :: e in es <==> e == e0 || e in es[1..];
    }
  }

  /** The SG loop from face slot `fi` on: an empty slot is skipped, every other face is
      made smooth and its edges marked. */
  function SmoothFrom(faces: seq<Option<Face>>, edict: map<Edge, nat>, seams: set<Edge>, sgs: seq<nat>, fi: nat)
    : Result<(seq<Option<Face>>, set<Edge>), Error>
    decreases |sgs| - fi, 1
  {
    if fi >= |sgs| then Success((faces, seams)) else SmoothAfter(faces, edict, seams, sgs, fi)
  }

  /** Slot `fi` of the SG loop, then the rest. */
  function SmoothAfter(faces: seq<Option<Face>>, edict: map<Edge, nat>, seams: set<Edge>, sgs: seq<nat>, fi: nat)
    : Result<(seq<Option<Face>>, set<Edge>), Error>
    requires fi < |sgs|
    decreases |sgs| - fi, 0
  {
    if fi >= |faces| then Failure(NoFace(fi))
    else if faces[fi].None? then SmoothFrom(faces, edict, seams, sgs, fi + 1)
    else
      var f := faces[fi].value;
      var m := MarkEdges(edict, seams, FaceEdges(f.verts), sgs[fi]);
      SmoothFrom(faces[fi := Some(f.(smooth := true))], m.0, m.1, sgs, fi + 1)
  }

  /** The SG loop fails exactly when it lists more groups than there are face slots. */
  lemma {:induction false} SmoothFails(faces: seq<Option<Face>>, edict: map<Edge, nat>, seams: set<Edge>, sgs: seq<nat>, fi: nat)
    ensures SmoothFrom(faces, edict, seams, sgs, fi).Success? <==> |sgs| <= |faces| || fi >= |sgs|
    decreases |sgs| - fi
  {
    if fi < |sgs| && fi < |faces| {
      if faces[fi].None? {
        SmoothFails(faces, edict, seams, sgs, fi + 1);
      } else {
        var f := faces[fi].value;
        var m := MarkEdges(edict, seams, FaceEdges(f.verts), sgs[fi]);
        SmoothFails(faces[fi := Some(f.(smooth := true))], m.0, m.1, sgs, fi + 1);
      }
    }
  }

  /** Slot `i` after the SG loop from `fi` over `n` groups: a listed face is made smooth and
      nothing else of it changes; empty and unlisted slots do not change. */
  function Smoothed(slot: Option<Face>, i: nat, fi: nat, n: nat): Option<Face>
  {
    if fi <= i < n && slot.Some? then Some(slot.value.(smooth := true)) else slot
  }

  /** Empty slots are left as they are, every other listed face is made smooth and nothing
      else of it changes, and unlisted slots do not change. */
  lemma {:induction false} SmoothFaces(faces: seq<Option<Face>>, edict: map<Edge, nat>, seams: set<Edge>, sgs: seq<nat>, fi: nat)
    requires SmoothFrom(faces, edict, seams, sgs, fi).Success?
    ensures var r := SmoothFrom(faces, edict, seams, sgs, fi).value.0;
      |r| == |faces| && forall i :: 0 <= i < |faces| ==> r[i] == Smoothed(faces[i], i, fi, |sgs|)
    decreases |sgs| - fi, 1
  {
    if fi < |sgs| {
      if faces[fi].None? {
        var r := SmoothFrom(faces, edict, seams, sgs, fi + 1);
        assert SmoothFrom(faces, edict, seams, sgs, fi) == r;
        SmoothFaces(faces, edict, seams, sgs, fi + 1);
        SmoothedStep(faces, faces, r.value.0, fi, |sgs|);
      } else {
        SmoothFacesMarked(faces, edict, seams, sgs, fi);
      }
    }
  }

  /** `SmoothFaces` for a loop that starts at a face: it is made smooth, its edges marked,
      and the loop goes on from the next slot. */
  lemma {:induction false} SmoothFacesMarked(faces: seq<Option<Face>>, edict: map<Edge, nat>, seams: set<Edge>, sgs: seq<nat>, fi: nat)
    requires fi < |sgs| && fi < |faces| && faces[fi].Some?
    requires SmoothFrom(faces, edict, seams, sgs, fi).Success?
    ensures var r := SmoothFrom(faces, edict, seams, sgs, fi).value.0;
      |r| == |faces| && forall i :: 0 <= i < |faces| ==> r[i] == Smoothed(faces[i], i, fi, |sgs|)
    decreases |sgs| - fi, 0
  {
    var f := faces[fi].value;
    var m := MarkEdges(edict, seams, FaceEdges(f.verts), sgs[fi]);
    var faces2 := faces[fi := Some(f.(smooth := true))];
    var r := SmoothFrom(faces2, m.0, m.1, sgs, fi + 1);
    assert SmoothFrom(faces, edict, seams, sgs, fi) == r;
    SmoothFaces(faces2, m.0, m.1, sgs, fi + 1);
    SmoothedStep(faces, faces2, r.value.0, fi, |sgs|);
  }

  /** One step of the loop on the slots: slot `fi` made smooth (or left empty) and the rest
      of the loop from `fi + 1` give the slots of the loop from `fi`. */
  lemma SmoothedStep(faces: seq<Option<Face>>, faces2: seq<Option<Face>>, r: seq<Option<Face>>, fi: nat, n: nat)
    requires fi < n && fi < |faces| == |faces2| == |r|
    requires faces2 == faces[fi := Smoothed(faces[fi], fi, fi, n)]
    requires forall i :: 0 <= i < |r| ==> r[i] == Smoothed(faces2[i], i, fi + 1, n)
    ensures forall i :: 0 <= i < |r| ==> r[i] == Smoothed(faces[i], i, fi, n)
  {
    forall i | 0 <= i < |r|
      ensures r[i] == Smoothed(faces[i], i, fi, n)
    {
      if i != fi {
        assert faces2[i] == faces[i];
      }
    }
  }

  /** A seam, once set, is never cleared. */
  lemma {:induction false} SmoothKeepsSeams(faces: seq<Option<Face>>, edict: map<Edge, nat>, seams: set<Edge>, sgs: seq<nat>, fi: nat)
    requires SmoothFrom(faces, edict, seams, sgs, fi).Success?
    ensures seams <= SmoothFrom(faces, edict, seams, sgs, fi).value.1
    decreases |sgs| - fi
  {
    if fi < |sgs| {
      if faces[fi].None? {
        SmoothKeepsSeams(faces, edict, seams, sgs, fi + 1);
      } else {
        var f := faces[fi].value;
        var m := MarkEdges(edict, seams, FaceEdges(f.verts), sgs[fi]);
        MarkEdgesEffect(edict, seams, FaceEdges(f.verts), sgs[fi]);
        SmoothKeepsSeams(faces[fi := Some(f.(smooth := true))], m.0, m.1, sgs, fi + 1);
      }
    }
  }

  /** The edges of face slot `i`, none for an empty slot. */
  function SlotEdges(faces: seq<Option<Face>>, i: nat): seq<Edge>
  {
    if i < |faces| && faces[i].Some? then FaceEdges(faces[i].value.verts) else []
  }

  /** Faces of one group never make a seam: when every listed face that has edge `e` is in
      group `g` (and `e` so far records `g`, if anything), `e` becomes a seam only if it
      already was one. */
  lemma {:induction false} SameGroupNoSeam(faces: seq<Option<Face>>, edict: map<Edge, nat>, seams: set<Edge>, sgs: seq<nat>, fi: nat, e: Edge, g: nat)
    requires e in edict ==> edict[e] == g
    requires forall i :: fi <= i < |sgs| && e in SlotEdges(faces, i) ==> sgs[i] == g
    requires SmoothFrom(faces, edict, seams, sgs, fi).Success?
    ensures e in SmoothFrom(faces, edict, seams, sgs, fi).value.1 <==> e in seams
    decreases |sgs| - fi
  {
    if fi < |sgs| && fi < |faces| {
      if faces[fi].None? {
        SameGroupNoSeam(faces, edict, seams, sgs, fi + 1, e, g);
      } else {
        var f := faces[fi].value;
        var faces2 := faces[fi := Some(f.(smooth := true))];
        var m := MarkEdges(edict, seams, FaceEdges(f.verts), sgs[fi]);
        var ed, sm := m.0, m.1;
        MarkEdgesEffect(edict, seams, FaceEdges(f.verts), sgs[fi]);
        forall i | fi + 1 <= i < |sgs| && e in SlotEdges(faces2, i)
          ensures sgs[i] == g
        {
          assert SlotEdges(faces2, i) == SlotEdges(faces, i);
        }
        SameGroupNoSeam(faces2, ed, sm, sgs, fi + 1, e, g);
      }
    }
  }

  /** The SG chunk: one u32 group per face slot, `len(data) // 4` of them (every field of
      the chunk), with a fresh edge table. */
  function SmoothChunk(st: MeshState, fs: seq<Field>): Result<MeshState, Error>
  {
    var raw :- LiftRead(GetManyAt(fs, 0, 'I', |fs|));
    var (faces, seams) :- SmoothFrom(st.faces, map[], st.seams, Nums(raw), 0);
    Success(st.(faces := faces, seams := seams))
  }

  // ---------------------------------------------------------------------------
  // SFACE: face materials

  /** Gives material `midx` to the faces listed in `fis` from position `k` on. */
  function AssignFrom(faces: seq<Option<Face>>, fis: seq<nat>, midx: nat, k: nat): Result<seq<Option<Face>>, Error>
    decreases |fis| - k
  {
    if k >= |fis| then Success(faces)
    else if fis[k] >= |faces| then Failure(NoFace(fis[k]))
    else if faces[fis[k]].None? then AssignFrom(faces, fis, midx, k + 1)
    else AssignFrom(faces[fis[k] := Some(faces[fis[k]].value.(material := midx))], fis, midx, k + 1)
  }

  /** The assignment fails exactly when a listed index names no face slot; otherwise each
      listed face gets `midx` and nothing else of it changes, and empty or unlisted slots do
      not change. */
  lemma {:induction false} AssignEffect(faces: seq<Option<Face>>, fis: seq<nat>, midx: nat, k: nat)
    requires k <= |fis|
    ensures AssignFrom(faces, fis, midx, k).Success? <==> forall j :: k <= j < |fis| ==> fis[j] < |faces|
    ensures AssignFrom(faces, fis, midx, k).Success? ==>
      var r := AssignFrom(faces, fis, midx, k).value;
      |r| == |faces| &&
      forall i :: 0 <= i < |faces| ==>
        r[i] == if faces[i].Some? && i in fis[k..] then Some(faces[i].value.(material := midx)) else faces[i]
    decreases |fis| - k
  {
    if k < |fis| {
      if fis[k] < |faces| {
        var faces2 := if faces[fis[k]].None? then faces else faces[fis[k] := Some(faces[fis[k]].value.(material := midx))];
        AssignEffect(faces2, fis, midx, k + 1);
        assert forall i :: i in fis[k..] <==> i == fis[k] || i in fis[k + 1..];
      }
    }
  }

  /** One SFACE record at `pos`: a material name, then the u32 count and the face indices
      that get the material, whose index is the number of materials before it; the faces,
      the materials and the position after it. */
  function MaterialRecord(faces: seq<Option<Face>>, materials: seq<string>, fs: seq<Field>, pos: nat)
    : Result<(seq<Option<Face>>, seq<string>, nat), Error>
  {
    var nm :- LiftRead(GetAt(fs, pos, 's'));
    var c :- LiftRead(GetAt(fs, pos + 1, 'I'));
    var fis :- LiftRead(GetManyAt(fs, pos + 2, 'I', Num(c)));
    var faces2 :- AssignFrom(faces, Nums(fis), |materials|, 0);
    Success((faces2, materials + [Text(nm)], pos + 2 + Num(c)))
  }

  /** `n` more SFACE records from `pos`. */
  function MaterialsFrom(faces: seq<Option<Face>>, materials: seq<string>, fs: seq<Field>, pos: nat, n: nat)
    : Result<(seq<Option<Face>>, seq<string>), Error>
    decreases n
  {
    if n == 0 then Success((faces, materials))
    else
      var m :- MaterialRecord(faces, materials, fs, pos);
      MaterialsFrom(m.0, m.1, fs, m.2, n - 1)
  }

  /** What one face slot may become: the same slot, or the same face with a material index
      in `lo..hi`. */
  predicate SameOrMaterial(before: Option<Face>, after: Option<Face>, lo: nat, hi: nat)
  {
    (after.None? <==> before.None?) &&
    (after.Some? ==>
      after.value.verts == before.value.verts && after.value.smooth == before.value.smooth &&
      (after.value.material == before.value.material || lo <= after.value.material < hi))
  }

  /** One record appends its name and gives only its own index to faces. */
  lemma MaterialRecordEffect(faces: seq<Option<Face>>, materials: seq<string>, fs: seq<Field>, pos: nat)
    requires MaterialRecord(faces, materials, fs, pos).Success?
    ensures var (fs2, ms, _) := MaterialRecord(faces, materials, fs, pos).value;
      ms == materials + [Text(fs[pos])] && |fs2| == |faces| &&
      forall i :: 0 <= i < |faces| ==> SameOrMaterial(faces[i], fs2[i], |materials|, |materials| + 1)
  {
    var c := GetAt(fs, pos + 1, 'I').value;
    var fis := GetManyAt(fs, pos + 2, 'I', Num(c)).value;
    AssignEffect(faces, Nums(fis), |materials|, 0);
  }

  /** The materials list grows by one name per record, the face slots keep their number, and
      a face's material is always the index of a listed material or the one it had. */
  lemma {:induction false} MaterialsEffect(faces: seq<Option<Face>>, materials: seq<string>, fs: seq<Field>, pos: nat, n: nat)
    requires MaterialsFrom(faces, materials, fs, pos, n).Success?
    ensures var (fs2, ms) := MaterialsFrom(faces, materials, fs, pos, n).value;
      |ms| == |materials| + n && ms[..|materials|] == materials && |fs2| == |faces| &&
      forall i :: 0 <= i < |faces| ==> SameOrMaterial(faces[i], fs2[i], |materials|, |ms|)
    decreases n
  {
    if n > 0 {
      var m := MaterialRecord(faces, materials, fs, pos).value;
      MaterialRecordEffect(faces, materials, fs, pos);
      MaterialsEffect(m.0, m.1, fs, m.2, n - 1);
      var (fs2, ms) := MaterialsFrom(faces, materials, fs, pos, n).value;
      assert ms[..|m.1|][..|materials|] == materials;
      forall i | 0 <= i < |faces|
        ensures SameOrMaterial(faces[i], fs2[i], |materials|, |ms|)
      {
        assert SameOrMaterial(faces[i], m.0[i], |materials|, |materials| + 1);
        assert SameOrMaterial(m.0[i], fs2[i], |m.1|, |ms|);
      }
    }
  }

  /** The SFACE chunk: a u16 count of records. */
  function MaterialsChunk(st: MeshState, fs: seq<Field>): Result<MeshState, Error>
  {
    var n :- LiftRead(GetAt(fs, 0, 'H'));
    var (faces, materials) :- MaterialsFrom(st.faces, st.materials, fs, 1, Num(n));
    Success(st.(faces := faces, materials := materials))
  }

  // ---------------------------------------------------------------------------
  // VMAPS2: UV layers and bone weights

  /** Python's `&` on non-negative integers, one binary digit at a time. */
  function BitAnd(a: nat, b: nat): nat
    decreases a
  {
    if a == 0 || b == 0 then 0 else 2 * BitAnd(a / 2, b / 2) + (if a % 2 == 1 && b % 2 == 1 then 1 else 0)
  }

  /** `flags & 0x3`, the vertex-map type. */
  function VmapType(flags: nat): nat
  {
    BitAnd(flags, 3)
  }

  /** The type is the two low bits of the flags byte. */
  lemma VmapTypeIsLowBits(flags: nat)
    ensures VmapType(flags) == flags % 4
  {
    if flags > 0 {
      assert BitAnd(flags, 3) == 2 * BitAnd(flags / 2, 1) + flags % 2;
      if flags / 2 > 0 {
        assert BitAnd(flags / 2, 1) == 2 * BitAnd(flags / 4, 0) + (flags / 2) % 2;
      }
    }
  }

  /** The stored UV with V flipped: `(u, 1 - v)`. */
  function Flip(uv: UV): UV
  {
    (uv.0, 1.0 - uv.1)
  }

  /** `[pr.getf('ff') for __ in range(n)]` after the pairs `acc`: one pair read at a time,
      from `pos` on. */
  function UVPairsFrom(acc: seq<UV>, fs: seq<Field>, pos: nat, n: nat): (r: Result<seq<UV>, ReadError>)
    ensures r.Success? ==> |r.value| == |acc| + n
    decreases n
  {
    if n == 0 then Success(acc)
    else
      var p :- GetManyAt(fs, pos, 'f', 2);
      UVPairsFrom(acc + [(Real(p[0]), Real(p[1]))], fs, pos + 2, n - 1)
  }

  /** The pairs are read exactly when the next `2 * n` fields are floats, and pair `k` is
      made of fields `pos + 2k` and `pos + 2k + 1`, after the earlier pairs. */
  lemma {:induction false} UVPairsLayout(acc: seq<UV>, fs: seq<Field>, pos: nat, n: nat)
    ensures UVPairsFrom(acc, fs, pos, n).Success? <==>
      (n == 0 || pos + 2 * n <= |fs|) && forall k :: pos <= k < pos + 2 * n ==> Fits(fs[k], 'f')
    ensures UVPairsFrom(acc, fs, pos, n).Success? ==>
      var r := UVPairsFrom(acc, fs, pos, n).value;
      r[..|acc|] == acc &&
      forall k :: 0 <= k < n ==> r[|acc| + k] == (Real(fs[pos + 2 * k]), Real(fs[pos + 2 * k + 1]))
    decreases n
  {
    if n > 0 {
      var g := GetManyAt(fs, pos, 'f', 2);
      if g.Success? {
        var p := g.value;
        var acc2 := acc + [(Real(p[0]), Real(p[1]))];
        UVPairsLayout(acc2, fs, pos + 2, n - 1);
        if UVPairsFrom(acc, fs, pos, n).Success? {
          var r := UVPairsFrom(acc, fs, pos, n).value;
          assert r == UVPairsFrom(acc2, fs, pos + 2, n - 1).value;
          forall k | 0 < k < n
            ensures r[|acc| + k] == (Real(fs[pos + 2 * k]), Real(fs[pos + 2 * k + 1]))
          {
            assert |acc| + k == |acc2| + (k - 1);
            assert pos + 2 + 2 * (k - 1) == pos + 2 * k;
          }
          assert r[..|acc2|][..|acc|] == acc;
        }
        if n > 1 && pos + 2 * n <= |fs| && forall k :: pos <= k < pos + 2 * n ==> Fits(fs[k], 'f') {
          assert forall k :: pos + 2 <= k < pos + 2 + 2 * (n - 1) ==> Fits(fs[k], 'f');
        }
      } else {
        assert !(pos + 2 <= |fs| && forall k :: pos <= k < pos + 2 ==> Fits(fs[k], 'f'));
      }
    }
  }

  function Reals(fl: seq<Field>): (r: seq<real>)
    ensures |r| == |fl| && forall k :: 0 <= k < |fl| ==> r[k] == Real(fl[k])
  {
    seq(|fl|, k requires 0 <= k < |fl| => Real(fl[k]))
  }

  /** The loop of face slot `fi` at vertex `vi` that the disconnected case writes: the first
      one of the face whose vertex is `vi`; none for an empty slot. */
  function Target(faces: seq<Option<Face>>, fi: nat, vi: nat): (r: Option<Loop>)
    requires fi < |faces|
    ensures r.Some? ==>
      (r.value.face == fi && faces[fi].Some? &&
       r.value.corner < |faces[fi].value.verts| && faces[fi].value.verts[r.value.corner] == vi &&
       forall c :: 0 <= c < r.value.corner ==> faces[fi].value.verts[c] != vi)
    ensures r.None? ==> faces[fi].None? || vi !in faces[fi].value.verts
  {
    if faces[fi].None? then None
    else
      match FirstCorner(faces[fi].value.verts, vi, 0)
      case None => None
      case Some(c) => Some(Loop(fi, c))
  }

  function FirstCorner(vs: seq<nat>, vi: nat, c: nat): (r: Option<nat>)
    decreases |vs| - c
    ensures r.Some? ==> c <= r.value < |vs| && vs[r.value] == vi && forall j :: c <= j < r.value ==> vs[j] != vi
    ensures r.None? ==> forall j :: c <= j < |vs| ==> vs[j] != vi
  {
    if c >= |vs| then None else if vs[c] == vi then Some(c) else FirstCorner(vs, vi, c + 1)
  }

  /** The disconnected UV map from entry `k` on: entry `k` names a face slot and a vertex,
      and writes the flipped UV to that face's loop at that vertex. */
  function DisconUVs(layer: map<Loop, UV>, faces: seq<Option<Face>>, uvs: seq<UV>, vtx: seq<nat>, fcs: seq<nat>, k: nat)
    : Result<map<Loop, UV>, Error>
    requires |vtx| == |uvs| && |fcs| == |uvs|
    decreases |uvs| - k
  {
    if k >= |uvs| then Success(layer)
    else if fcs[k] >= |faces| then Failure(NoFace(fcs[k]))
    else
      match Target(faces, fcs[k], vtx[k])
      case None => DisconUVs(layer, faces, uvs, vtx, fcs, k + 1)
      case Some(l) => DisconUVs(layer[l := Flip(uvs[k])], faces, uvs, vtx, fcs, k + 1)
  }

  /** Entry `j` targets loop `l`. */
  predicate Targets(faces: seq<Option<Face>>, vtx: seq<nat>, fcs: seq<nat>, j: nat, l: Loop)
    requires j < |vtx| && j < |fcs|
  {
    fcs[j] < |faces| && Target(faces, fcs[j], vtx[j]) == Some(l)
  }

  /** A loop no remaining entry targets keeps what it had. */
  lemma {:induction false} DisconFrame(layer: map<Loop, UV>, faces: seq<Option<Face>>, uvs: seq<UV>, vtx: seq<nat>, fcs: seq<nat>, k: nat, l: Loop)
    requires |vtx| == |uvs| && |fcs| == |uvs|
    requires DisconUVs(layer, faces, uvs, vtx, fcs, k).Success?
    requires forall j :: k <= j < |uvs| ==> !Targets(faces, vtx, fcs, j, l)
    ensures var r := DisconUVs(layer, faces, uvs, vtx, fcs, k).value;
      (l in r <==> l in layer) && (l in layer ==> r[l] == layer[l])
    decreases |uvs| - k
  {
    if k < |uvs| {
      var t := Target(faces, fcs[k], vtx[k]);
      var layer2 := if t.None? then layer else layer[t.value := Flip(uvs[k])];
      assert DisconUVs(layer, faces, uvs, vtx, fcs, k) == DisconUVs(layer2, faces, uvs, vtx, fcs, k + 1);
      assert !Targets(faces, vtx, fcs, k, l);
      DisconFrame(layer2, faces, uvs, vtx, fcs, k + 1, l);
    }
  }

  /** The loop the last entry for it targets holds that entry's UV with V flipped. */
  lemma {:induction false} DisconLastWins(layer: map<Loop, UV>, faces: seq<Option<Face>>, uvs: seq<UV>, vtx: seq<nat>, fcs: seq<nat>, k: nat, j: nat, l: Loop)
    requires |vtx| == |uvs| && |fcs| == |uvs|
    requires DisconUVs(layer, faces, uvs, vtx, fcs, k).Success?
    requires k <= j < |uvs| && Targets(faces, vtx, fcs, j, l)
    requires forall i :: j < i < |uvs| ==> !Targets(faces, vtx, fcs, i, l)
    ensures var r := DisconUVs(layer, faces, uvs, vtx, fcs, k).value;
      l in r && r[l] == Flip(uvs[j])
    decreases |uvs| - k
  {
    var t := Target(faces, fcs[k], vtx[k]);
    var layer2 := if t.None? then layer else layer[t.value := Flip(uvs[k])];
    if k < j {
      DisconLastWins(layer2, faces, uvs, vtx, fcs, k + 1, j, l);
    } else {
      DisconFrame(layer2, faces, uvs, vtx, fcs, k + 1, l);
    }
  }

  /** `bm.verts[vi].link_loops`: every loop of every face at vertex `vi`. */
  function LoopsOf(faces: seq<Option<Face>>, vi: nat): set<Loop>
  {
    set f, c | 0 <= f < |faces| && faces[f].Some? && 0 <= c < |faces[f].value.verts| && faces[f].value.verts[c] == vi
      :: Loop(f, c)
  }

  /** `l[bml].uv = uv` for every loop `l` of `ls`. */
  function SetLoops(layer: map<Loop, UV>, ls: set<Loop>, uv: UV): map<Loop, UV>
  {
    map l | l in layer.Keys + ls :: if l in ls then uv else layer[l]
  }

  /** Every loop of `ls` gets `uv`, and no other loop changes. */
  lemma SetLoopsEffect(layer: map<Loop, UV>, ls: set<Loop>, uv: UV)
    ensures var r := SetLoops(layer, ls, uv);
      && (forall l :: l in r <==> l in layer || l in ls)
      && (forall l :: l in ls ==> r[l] == uv)
      && (forall l :: l in layer && l !in ls ==> r[l] == layer[l])
  {
  }

  /** Setting no loop changes nothing. */
  lemma SetLoopsNone(layer: map<Loop, UV>, ls: set<Loop>, uv: UV)
    ensures SetLoops(layer, ls - ls, uv) == layer
  {
    assert ls - ls == {};
    SetLoopsEffect(layer, {}, uv);
  }

  /** Setting one more loop `l` of those still to do. */
  lemma SetLoopsStep(layer: map<Loop, UV>, ls: set<Loop>, todo: set<Loop>, l: Loop, uv: UV)
    requires todo <= ls && l in todo
    ensures SetLoops(layer, ls - todo, uv)[l := uv] == SetLoops(layer, ls - (todo - {l}), uv)
  {
    var before, after := ls - todo, ls - (todo - {l});
    SetLoopsEffect(layer, before, uv);
    SetLoopsEffect(layer, after, uv);
    assert forall x :: x in after <==> x in before || x == l;
  }

  /** The connected UV map from entry `k` on: entry `k` names a vertex and writes the
      flipped UV to every loop at that vertex. */
  function ConnUVs(layer: map<Loop, UV>, faces: seq<Option<Face>>, nverts: nat, uvs: seq<UV>, vtx: seq<nat>, k: nat)
    : Result<map<Loop, UV>, Error>
    requires |vtx| == |uvs|
    decreases |uvs| - k
  {
    if k >= |uvs| then Success(layer)
    else if vtx[k] >= nverts then Failure(NoVertex(vtx[k]))
    else ConnUVs(SetLoops(layer, LoopsOf(faces, vtx[k]), Flip(uvs[k])), faces, nverts, uvs, vtx, k + 1)
  }

  /** The connected map fails exactly when an entry names no vertex. */
  lemma {:induction false} ConnFails(layer: map<Loop, UV>, faces: seq<Option<Face>>, nverts: nat, uvs: seq<UV>, vtx: seq<nat>, k: nat)
    requires |vtx| == |uvs|
    ensures ConnUVs(layer, faces, nverts, uvs, vtx, k).Success? <==> forall j :: k <= j < |uvs| ==> vtx[j] < nverts
    decreases |uvs| - k
  {
    if k < |uvs| && vtx[k] < nverts {
      ConnFails(SetLoops(layer, LoopsOf(faces, vtx[k]), Flip(uvs[k])), faces, nverts, uvs, vtx, k + 1);
    }
  }

  /** A loop whose vertex no remaining entry names keeps what it had. */
  lemma {:induction false} ConnFrame(layer: map<Loop, UV>, faces: seq<Option<Face>>, nverts: nat, uvs: seq<UV>, vtx: seq<nat>, k: nat, l: Loop)
    requires |vtx| == |uvs|
    requires ConnUVs(layer, faces, nverts, uvs, vtx, k).Success?
    requires forall j :: k <= j < |uvs| ==> l !in LoopsOf(faces, vtx[j])
    ensures var r := ConnUVs(layer, faces, nverts, uvs, vtx, k).value;
      (l in r <==> l in layer) && (l in layer ==> r[l] == layer[l])
    decreases |uvs| - k
  {
    if k < |uvs| {
      ConnFrame(SetLoops(layer, LoopsOf(faces, vtx[k]), Flip(uvs[k])), faces, nverts, uvs, vtx, k + 1, l);
    }
  }

  /** Every loop of a vertex holds the flipped UV of the last entry for that vertex. */
  lemma {:induction false} ConnLastWins(layer: map<Loop, UV>, faces: seq<Option<Face>>, nverts: nat, uvs: seq<UV>, vtx: seq<nat>, k: nat, j: nat, l: Loop)
    requires |vtx| == |uvs|
    requires ConnUVs(layer, faces, nverts, uvs, vtx, k).Success?
    requires k <= j < |uvs| && l in LoopsOf(faces, vtx[j])
    requires forall i :: j < i < |uvs| ==> vtx[i] != vtx[j]
    ensures var r := ConnUVs(layer, faces, nverts, uvs, vtx, k).value;
      l in r && r[l] == Flip(uvs[j])
    decreases |uvs| - k
  {
    var layer2 := SetLoops(layer, LoopsOf(faces, vtx[k]), Flip(uvs[k]));
    if k < j {
      ConnLastWins(layer2, faces, nverts, uvs, vtx, k + 1, j, l);
    } else {
      forall i | k + 1 <= i < |uvs|
        ensures l !in LoopsOf(faces, vtx[i])
      {
        LoopVertex(faces, vtx[j], l);
        if l in LoopsOf(faces, vtx[i]) {
          LoopVertex(faces, vtx[i], l);
        }
      }
      ConnFrame(layer2, faces, nverts, uvs, vtx, k + 1, l);
    }
  }

  /** A loop belongs to the vertex at its corner. */
  lemma LoopVertex(faces: seq<Option<Face>>, vi: nat, l: Loop)
    requires l in LoopsOf(faces, vi)
    ensures l.face < |faces| && faces[l.face].Some? && l.corner < |faces[l.face].value.verts|
    ensures faces[l.face].value.verts[l.corner] == vi
  {
  }

  /** The weights of vertex `vi` so far (its deform layer). */
  function WeightsOf(weights: map<nat, map<nat, real>>, vi: nat): map<nat, real>
  {
    if vi in weights then weights[vi] else map[]
  }

  /** The connected weight map from entry `k` on: `bm.verts[vi][bml][vgi] = w`. */
  function Weigh(weights: map<nat, map<nat, real>>, nverts: nat, wgs: seq<real>, vtx: seq<nat>, vgi: nat, k: nat)
    : Result<map<nat, map<nat, real>>, Error>
    requires |vtx| == |wgs|
    decreases |wgs| - k
  {
    if k >= |wgs| then Success(weights)
    else if vtx[k] >= nverts then Failure(NoVertex(vtx[k]))
    else Weigh(weights[vtx[k] := WeightsOf(weights, vtx[k])[vgi := wgs[k]]], nverts, wgs, vtx, vgi, k + 1)
  }

  /** A weight not in group `vgi`, or of a vertex no remaining entry names, does not change. */
  lemma {:induction false} WeighFrame(weights: map<nat, map<nat, real>>, nverts: nat, wgs: seq<real>, vtx: seq<nat>, vgi: nat, k: nat, vi: nat, g: nat)
    requires |vtx| == |wgs|
    requires Weigh(weights, nverts, wgs, vtx, vgi, k).Success?
    requires g != vgi || forall j :: k <= j < |wgs| ==> vtx[j] != vi
    ensures var r := WeightsOf(Weigh(weights, nverts, wgs, vtx, vgi, k).value, vi);
      (g in r <==> g in WeightsOf(weights, vi)) && (g in r ==> r[g] == WeightsOf(weights, vi)[g])
    decreases |wgs| - k
  {
    if k < |wgs| {
      WeighFrame(weights[vtx[k] := WeightsOf(weights, vtx[k])[vgi := wgs[k]]], nverts, wgs, vtx, vgi, k + 1, vi, g);
    }
  }

  /** A vertex's weight in group `vgi` is the last one listed for it. */
  lemma {:induction false} WeighLastWins(weights: map<nat, map<nat, real>>, nverts: nat, wgs: seq<real>, vtx: seq<nat>, vgi: nat, k: nat, j: nat)
    requires |vtx| == |wgs|
    requires Weigh(weights, nverts, wgs, vtx, vgi, k).Success?
    requires k <= j < |wgs|
    requires forall i :: j < i < |wgs| ==> vtx[i] != vtx[j]
    ensures var r := WeightsOf(Weigh(weights, nverts, wgs, vtx, vgi, k).value, vtx[j]);
      vgi in r && r[vgi] == wgs[j]
    decreases |wgs| - k
  {
    var weights2 := weights[vtx[k] := WeightsOf(weights, vtx[k])[vgi := wgs[k]]];
    if k < j {
      WeighLastWins(weights2, nverts, wgs, vtx, vgi, k + 1, j);
    } else {
      WeighFrame(weights2, nverts, wgs, vtx, vgi, k + 1, vtx[j], vgi);
    }
  }

  /** The weight map fails exactly when an entry names no vertex. */
  lemma {:induction false} WeighFails(weights: map<nat, map<nat, real>>, nverts: nat, wgs: seq<real>, vtx: seq<nat>, vgi: nat, k: nat)
    requires |vtx| == |wgs|
    ensures Weigh(weights, nverts, wgs, vtx, vgi, k).Success? <==> forall j :: k <= j < |wgs| ==> vtx[j] < nverts
    decreases |wgs| - k
  {
    if k < |wgs| && vtx[k] < nverts {
      WeighFails(weights[vtx[k] := WeightsOf(weights, vtx[k])[vgi := wgs[k]]], nverts, wgs, vtx, vgi, k + 1);
    }
  }

  /** The layer named `n` (`uv.get(n)`, or a new empty one). */
  function LayerOf(uvs: map<string, map<Loop, UV>>, n: string): map<Loop, UV>
  {
    if n in uvs then uvs[n] else map[]
  }

  /** One VMAPS2 record at `pos`: name, dimension, discontinuity byte, flags byte, size, then
      what the type calls for; the state after it and the position after it. */
  function VmapRecord(st: MeshState, fs: seq<Field>, pos: nat): Result<(MeshState, nat), Error>
  {
    var n :- LiftRead(GetAt(fs, pos, 's'));
    var dim :- LiftRead(GetAt(fs, pos + 1, 'B'));
    var dc :- LiftRead(GetAt(fs, pos + 2, 'B'));
    var fl :- LiftRead(GetAt(fs, pos + 3, 'B'));
    var szf :- LiftRead(GetAt(fs, pos + 4, 'I'));
    var typ := VmapType(Num(fl));
    if typ == 0 then UVMap(st, fs, pos + 5, Text(n), Num(dc) != 0, Num(szf))
    else if typ == 1 then WeightMap(st, fs, pos + 5, Text(n), Num(dc) != 0, Num(szf))
    else Failure(UnknownVmapType(typ))
  }

  /** The body of a UV map record at `p`: `sz` pairs, `sz` vertex indices and, when the map
      is disconnected, `sz` face indices; the layer `name` (new if missing) gets the UVs. */
  function UVMap(st: MeshState, fs: seq<Field>, p: nat, name: string, discon: bool, sz: nat): Result<(MeshState, nat), Error>
  {
    var uvl :- LiftRead(UVPairsFrom([], fs, p, sz));
    var vtx :- LiftRead(GetManyAt(fs, p + 2 * sz, 'I', sz));
    if discon then
      var fcs :- LiftRead(GetManyAt(fs, p + 3 * sz, 'I', sz));
      var layer :- DisconUVs(LayerOf(st.uvs, name), st.faces, uvl, Nums(vtx), Nums(fcs), 0);
      Success((st.(uvs := st.uvs[name := layer]), p + 4 * sz))
    else
      var layer :- ConnUVs(LayerOf(st.uvs, name), st.faces, |st.verts|, uvl, Nums(vtx), 0);
      Success((st.(uvs := st.uvs[name := layer]), p + 3 * sz))
  }

  /** The body of a weight map record at `p`: the vertex group `name` is added, then `sz`
      weights, `sz` vertex indices and, when the map is disconnected, `sz` face indices that
      are read and not used. */
  function WeightMap(st: MeshState, fs: seq<Field>, p: nat, name: string, discon: bool, sz: nat): Result<(MeshState, nat), Error>
  {
    var groups := st.groups + [name];
    var wgs :- LiftRead(GetManyAt(fs, p, 'f', sz));
    var vtx :- LiftRead(GetManyAt(fs, p + sz, 'I', sz));
    if discon then
      var fcs :- LiftRead(GetManyAt(fs, p + 2 * sz, 'I', sz));
      Success((st.(groups := groups), p + 3 * sz))
    else
      var weights :- Weigh(st.weights, |st.verts|, Reals(wgs), Nums(vtx), |st.groups|, 0);
      Success((st.(groups := groups, weights := weights), p + 2 * sz))
  }

  /** The fields of a record header at `pos`: a name, three bytes and a u32. */
  predicate HeaderAt(fs: seq<Field>, pos: nat)
  {
    pos + 5 <= |fs| && Fits(fs[pos], 's') && Fits(fs[pos + 1], 'B') && Fits(fs[pos + 2], 'B') &&
    Fits(fs[pos + 3], 'B') && Fits(fs[pos + 4], 'I')
  }

  /** The record's type is `flags & 3`: type 0 is a UV map, type 1 a weight map, and any
      other type stops the import once the header is read. */
  lemma VmapDispatch(st: MeshState, fs: seq<Field>, pos: nat)
    requires HeaderAt(fs, pos)
    ensures Num(fs[pos + 3]) < 0x100
    ensures var typ := VmapType(Num(fs[pos + 3]));
      (typ > 1 ==> VmapRecord(st, fs, pos) == Failure(UnknownVmapType(typ))) &&
      (VmapRecord(st, fs, pos).Success? && typ == 0 ==>
        VmapRecord(st, fs, pos).value.0 == st.(uvs := VmapRecord(st, fs, pos).value.0.uvs)) &&
      (VmapRecord(st, fs, pos).Success? && typ == 1 ==>
        VmapRecord(st, fs, pos).value.0.groups == st.groups + [Text(fs[pos])])
  {
  }

  /** A weight map with the discontinuity byte set reads its face-index array and adds the
      group, but changes no weight. */
  lemma DisconnectedWeightsIgnored(st: MeshState, fs: seq<Field>, pos: nat)
    requires HeaderAt(fs, pos) && Num(fs[pos + 3]) < 0x100
    requires VmapType(Num(fs[pos + 3])) == 1 && Num(fs[pos + 2]) != 0
    requires VmapRecord(st, fs, pos).Success?
    ensures VmapRecord(st, fs, pos).value == (st.(groups := st.groups + [Text(fs[pos])]), pos + 5 + 3 * Num(fs[pos + 4]))
  {
  }

  /** `n` more VMAPS2 records from `pos`. */
  function VmapsFrom(st: MeshState, fs: seq<Field>, pos: nat, n: nat): Result<MeshState, Error>
    decreases n, 2
  {
    if n == 0 then Success(st) else VmapsNext(st, fs, pos, n)
  }

  /** `n > 0` records from `pos`. (This level and the next keep the record reader from
      being expanded wherever the loop is only mentioned.) */
  function VmapsNext(st: MeshState, fs: seq<Field>, pos: nat, n: nat): Result<MeshState, Error>
    requires n > 0
    decreases n, 1
  {
    VmapsAfter(st, fs, pos, n)
  }

  /** The record at `pos`, then the `n - 1` after it. */
  function VmapsAfter(st: MeshState, fs: seq<Field>, pos: nat, n: nat): Result<MeshState, Error>
    requires n > 0
    decreases n, 0
  {
    var r :- VmapRecord(st, fs, pos);
    VmapsFrom(r.0, fs, r.1, n - 1)
  }

  /** One step of the record loop: the first record decides, then the rest follow. */
  lemma VmapsStep(st: MeshState, fs: seq<Field>, pos: nat, n: nat)
    requires n > 0
    ensures var rec := VmapRecord(st, fs, pos);
      VmapsFrom(st, fs, pos, n) == if rec.Failure? then Failure(rec.error) else VmapsFrom(rec.value.0, fs, rec.value.1, n - 1)
  {
    assert VmapsFrom(st, fs, pos, n) == VmapsNext(st, fs, pos, n);
    assert VmapsNext(st, fs, pos, n) == VmapsAfter(st, fs, pos, n);
  }

  /** The VMAPS2 chunk: a u32 count of records. */
  function VmapsChunk(st: MeshState, fs: seq<Field>): Result<MeshState, Error>
  {
    var n :- LiftRead(GetAt(fs, 0, 'I'));
    VmapsFrom(st, fs, 1, Num(n))
  }

  // ---------------------------------------------------------------------------
  // The mesh chunk loop

  function VertsChunk(st: MeshState, fs: seq<Field>): Result<MeshState, Error>
  {
    var n :- LiftRead(GetAt(fs, 0, 'I'));
    var verts :- VertsFrom(st.verts, fs, 1, Num(n));
    Success(st.(verts := verts))
  }

  function FacesChunk(st: MeshState, fs: seq<Field>): Result<MeshState, Error>
  {
    var n :- LiftRead(GetAt(fs, 0, 'I'));
    var faces :- FacesFrom(|st.verts|, st.faces, fs, 1, Num(n));
    Success(st.(faces := faces))
  }

  /** MESHNAME: the object's name. */
  function NameChunk(st: MeshState, fs: seq<Field>): Result<MeshState, Error>
  {
    var nm :- LiftRead(GetAt(fs, 0, 's'));
    Success(st.(name := Text(nm)))
  }

  /** FLAGS: one byte, kept as the mesh's flags. */
  function FlagsChunk(st: MeshState, fs: seq<Field>): Result<MeshState, Error>
  {
    var b :- LiftRead(GetAt(fs, 0, 'B'));
    Success(st.(flags := Num(b)))
  }

  /** OPTIONS: two u32, kept as they are. */
  function OptionsChunk(st: MeshState, fs: seq<Field>): Result<MeshState, Error>
  {
    var o :- LiftRead(GetManyAt(fs, 0, 'I', 2));
    Success(st.(options := o))
  }

  /** The tags `_import_mesh` reads after the version; any other tag is unknown there. */
  predicate MeshKnown(t: Tag)
  {
    t in {MeshVerts, MeshFaces, MeshName, MeshSG, MeshSFace, MeshVMRefs, MeshVMaps2, MeshFlags, MeshBBox, MeshOptions}
  }

  /** One chunk of the mesh loop: the new state, and the warning an unknown tag prints. */
  function MeshChunk(st: MeshState, c: Chunk): Result<(MeshState, seq<Warning>), Error>
  {
    if !MeshKnown(c.tag) then Success((st, [UnknownChunk(c.tag, Mesh)]))
    else if c.tag in {MeshVMRefs, MeshBBox} then Success((st, []))
    else
      var fs :- FieldsOf(c);
      var st2 :- PackedChunk(st, c.tag, fs);
      Success((st2, []))
  }

  /** The reader of one known mesh tag whose payload is packed fields. */
  function PackedChunk(st: MeshState, tag: Tag, fs: seq<Field>): Result<MeshState, Error>
  {
    if tag == MeshVerts then VertsChunk(st, fs)
    else if tag == MeshFaces then FacesChunk(st, fs)
    else if tag == MeshName then NameChunk(st, fs)
    else if tag == MeshSG then SmoothChunk(st, fs)
    else if tag == MeshSFace then MaterialsChunk(st, fs)
    else if tag == MeshVMaps2 then VmapsChunk(st, fs)
    else if tag == MeshFlags then FlagsChunk(st, fs)
    else if tag == MeshOptions then OptionsChunk(st, fs)
    else Success(st)
  }

  /** The mesh loop from chunk `k` on. */
  function MeshChunksFrom(st: MeshState, cs: seq<Chunk>, k: nat, ws: seq<Warning>): Result<(MeshState, seq<Warning>), Error>
    decreases |cs| - k
  {
    if k >= |cs| then Success((st, ws))
    else
      var r :- MeshChunk(st, cs[k]);
      MeshChunksFrom(r.0, cs, k + 1, ws + r.1)
  }

  /** `_import_mesh`: the version chunk, which must hold exactly 0x11, then the loop. */
  function ImportMeshSpec(cs: seq<Chunk>): Result<(MeshState, seq<Warning>), Error>
  {
    var _ :- CheckVersion(cs, MeshVersion, MeshVersion, MESH_VERSION);
    MeshChunksFrom(EmptyMesh, cs, 1, [])
  }

  /** An unknown tag only adds a warning: the loop goes on with the same state. */
  lemma MeshUnknownContinues(st: MeshState, cs: seq<Chunk>, k: nat, ws: seq<Warning>)
    requires k < |cs| && !MeshKnown(cs[k].tag)
    ensures MeshChunksFrom(st, cs, k, ws) == MeshChunksFrom(st, cs, k + 1, ws + [UnknownChunk(cs[k].tag, Mesh)])
  {
  }

  /** A mesh is imported only when its version word is 0x11; with any other word it is
      refused with that word before any other chunk is read. */
  lemma MeshVersionExact(cs: seq<Chunk>, v: nat)
    ensures ImportMeshSpec(cs).Success? ==>
      cs[0].tag == MeshVersion && cs[0].data.Packed? && |cs[0].data.fs| > 0 && cs[0].data.fs[0] == U16(MESH_VERSION)
    ensures (|cs| > 0 && cs[0].tag == MeshVersion && cs[0].data.Packed? && |cs[0].data.fs| > 0 &&
             cs[0].data.fs[0] == U16(v) && v != MESH_VERSION && v < U16_LIMIT) ==>
      ImportMeshSpec(cs) == Failure(BadVersion(MeshVersion, v))
  {
    CheckVersionExact(cs, MeshVersion, MeshVersion, MESH_VERSION);
  }
}
