/** `_import_mesh` as the code runs it: a builder whose fields are the bmesh, the face list
    `bmfaces`, the mesh object's name, materials, vertex groups and custom properties, filled
    chunk by chunk through a packed reader. Every handler is proved to end in the state the
    matching function of `ObjectMesh` gives, and to raise the error it gives. */
module MeshImport {
  import opened Util
  import opened Packed
  import opened Chunks
  import opened ObjectMesh

  /** A handler's outcome agrees with its specification: it passes with the state the
      specification gives, or fails with the error it gives. (After a failure the state
      does not matter: the exception ends the whole import.) */
  ghost predicate Follows(r: Outcome<Error>, spec: Result<MeshState, Error>, now: MeshState)
  {
    if spec.Success? then r == Pass && now == spec.value else r == Fail(spec.error)
  }

  class MeshBuilder {
    var name: string
    var verts: seq<Vec3>
    var faces: seq<Option<Face>>
    var seams: set<Edge>
    var materials: seq<string>
    var uvs: map<string, map<Loop, UV>>
    var groups: seq<string>
    var weights: map<nat, map<nat, real>>
    var flags: nat
    var options: seq<Field>

    function State(): MeshState
      reads this
    {
      MeshState(name, verts, faces, seams, materials, uvs, groups, weights, flags, options)
    }

    /** `bmesh.new()`, an empty `bmfaces` and the object named 'tmp'. */
    constructor ()
      ensures State() == EmptyMesh
    {
      name, verts, faces, seams, materials := "tmp", [], [], {}, [];
      uvs, groups, weights, flags, options := map[], [], map[], 0, [];
    }

    /** One chunk of the `for (cid, data) in cr` loop, as the `if`/`elif` chain dispatches
        it: the warnings it prints. */
    method ReadChunk(c: Chunk) returns (r: Result<seq<Warning>, Error>)
      modifies this
      ensures var m := MeshChunk(old(State()), c);
        if m.Success? then r == Success(m.value.1) && State() == m.value.0 else r == Failure(m.error)
    {
      if c.tag == MeshVMRefs || c.tag == MeshBBox {
        return Success([]);
      } else if !MeshKnown(c.tag) {
        return Success([UnknownChunk(c.tag, Mesh)]);
      } else if !c.data.Packed? {
        return Failure(NotPacked(c.tag));
      }
      var o := ReadPacked(c.tag, c.data.fs);
      r := if o.Pass? then Success([]) else Failure(o.error);
    }

    /** The reader of one known tag with a packed payload. */
    method ReadPacked(tag: Tag, fs: seq<Field>) returns (o: Outcome<Error>)
      modifies this
      ensures Follows(o, PackedChunk(old(State()), tag, fs), State())
    {
      if tag == MeshVerts || tag == MeshFaces || tag == MeshName || tag == MeshSG {
        o := ReadGeometry(tag, fs);
      } else {
        o := ReadAttributes(tag, fs);
      }
    }

    /** VERTS, FACES, MESHNAME and SG. */
    method ReadGeometry(tag: Tag, fs: seq<Field>) returns (o: Outcome<Error>)
      requires tag == MeshVerts || tag == MeshFaces || tag == MeshName || tag == MeshSG
      modifies this
      ensures Follows(o, PackedChunk(old(State()), tag, fs), State())
    {
      if tag == MeshVerts {
        o := ReadVerts(fs);
      } else if tag == MeshFaces {
        o := ReadFaces(fs);
      } else if tag == MeshName {
        o := ReadName(fs);
      } else {
        o := ReadSmoothing(fs);
      }
    }

    /** SFACE, VMAPS2, FLAGS and OPTIONS; any other tag leaves the mesh as it is. */
    method ReadAttributes(tag: Tag, fs: seq<Field>) returns (o: Outcome<Error>)
      requires !(tag == MeshVerts || tag == MeshFaces || tag == MeshName || tag == MeshSG)
      modifies this
      ensures Follows(o, PackedChunk(old(State()), tag, fs), State())
    {
      if tag == MeshSFace {
        o := ReadMaterials(fs);
      } else if tag == MeshVMaps2 {
        o := ReadVmaps(fs);
      } else if tag == MeshFlags {
        o := ReadFlags(fs);
      } else if tag == MeshOptions {
        o := ReadOptions(fs);
      } else {
        o := Pass;
      }
    }

    /** VERTS: a u32 count of float triples. */
    method ReadVerts(fs: seq<Field>) returns (r: Outcome<Error>)
      modifies this
      ensures Follows(r, VertsChunk(old(State()), fs), State())
    {
      var pr := new Reader(fs);
      var c := pr.Get('I');
      if c.Failure? {
        return Fail(Read(c.error));
      }
      var n := Num(c.value);
      ghost var whole := VertsFrom(verts, fs, 1, n);
      var i := 0;
      while i < n
        invariant i <= n
        invariant VertsFrom(verts, fs, pr.pos, n - i) == whole
        invariant State() == old(State()).(verts := verts)
      {
        var v := pr.GetMany('f', 3);
        if v.Failure? {
          return Fail(Read(v.error));
        }
        verts := verts + [Vec3Of(v.value)];
        i := i + 1;
      }
      r := Pass;
    }

    /** FACES: a u32 count of six-u32 records; each appends one slot to `bmfaces`. */
    method ReadFaces(fs: seq<Field>) returns (r: Outcome<Error>)
      modifies this
      ensures Follows(r, FacesChunk(old(State()), fs), State())
    {
      var pr := new Reader(fs);
      var c := pr.Get('I');
      if c.Failure? {
        return Fail(Read(c.error));
      }
      var n := Num(c.value);
      ghost var whole := FacesFrom(|verts|, faces, fs, 1, n);
      var i := 0;
      while i < n
        invariant i <= n
        invariant FacesFrom(|verts|, faces, fs, pr.pos, n - i) == whole
        invariant State() == old(State()).(faces := faces)
      {
        var fr := pr.GetMany('I', 6);
        if fr.Failure? {
          return Fail(Read(fr.error));
        }
        var face := BuildFace(|verts|, faces, FaceVerts(fr.value));
        if face.Failure? {
          return Fail(face.error);
        }
        faces := faces + [face.value];
        i := i + 1;
      }
      r := Pass;
    }

    /** MESHNAME: the object's name. */
    method ReadName(fs: seq<Field>) returns (r: Outcome<Error>)
      modifies this
      ensures Follows(r, NameChunk(old(State()), fs), State())
    {
      var pr := new Reader(fs);
      var s := pr.Get('s');
      if s.Failure? {
        return Fail(Read(s.error));
      }
      name := Text(s.value);
      r := Pass;
    }

    /** FLAGS: one byte. */
    method ReadFlags(fs: seq<Field>) returns (r: Outcome<Error>)
      modifies this
      ensures Follows(r, FlagsChunk(old(State()), fs), State())
    {
      var pr := new Reader(fs);
      var b := pr.Get('B');
      if b.Failure? {
        return Fail(Read(b.error));
      }
      flags := Num(b.value);
      r := Pass;
    }

    /** OPTIONS: two u32. */
    method ReadOptions(fs: seq<Field>) returns (r: Outcome<Error>)
      modifies this
      ensures Follows(r, OptionsChunk(old(State()), fs), State())
    {
      var pr := new Reader(fs);
      var o := pr.GetMany('I', 2);
      if o.Failure? {
        return Fail(Read(o.error));
      }
      options := o.value;
      r := Pass;
    }

    /** SG: one u32 group per field; each listed face is made smooth and its edges are
        checked against the edge table `edict`. */
    method ReadSmoothing(fs: seq<Field>) returns (r: Outcome<Error>)
      modifies this
      ensures Follows(r, SmoothChunk(old(State()), fs), State())
    {
      var pr := new Reader(fs);
      var raw := pr.GetMany('I', |fs|);
      if raw.Failure? {
        return Fail(Read(raw.error));
      }
      r := MarkSmooth(Nums(raw.value));
    }

    /** The loop over the smoothing groups, one per face slot. */
    method MarkSmooth(sgs: seq<nat>) returns (r: Outcome<Error>)
      modifies this
      ensures var w := SmoothFrom(old(faces), map[], old(seams), sgs, 0);
        if w.Success? then r == Pass && State() == old(State()).(faces := w.value.0, seams := w.value.1)
        else r == Fail(w.error)
    {
      var edict: map<Edge, nat> := map[];
      ghost var whole := SmoothFrom(faces, edict, seams, sgs, 0);
      var fi := 0;
      while fi < |sgs|
        invariant fi <= |sgs|
        invariant SmoothFrom(faces, edict, seams, sgs, fi) == whole
        invariant State() == old(State()).(faces := faces, seams := seams)
      {
        if fi >= |faces| {
          return Fail(NoFace(fi));
        }
        edict := SmoothSlot(edict, sgs, fi);
        fi := fi + 1;
      }
      r := Pass;
    }

    /** One face slot of the SG loop: an empty slot is skipped; a face is made smooth and
        its edges are marked with its group. */
    method SmoothSlot(edict: map<Edge, nat>, sgs: seq<nat>, fi: nat) returns (ed: map<Edge, nat>)
      requires fi < |sgs| && fi < |faces|
      modifies this
      ensures SmoothFrom(old(faces), edict, old(seams), sgs, fi) == SmoothFrom(faces, ed, seams, sgs, fi + 1)
      ensures State() == old(State()).(faces := faces, seams := seams)
    {
      ed := edict;
      if faces[fi].Some? {
        var f := faces[fi].value;
        faces := faces[fi := Some(f.(smooth := true))];
        ed := MarkFace(edict, FaceEdges(f.verts), sgs[fi]);
      }
    }

    /** SFACE: a u16 count of materials; each takes the next material index and gives it to
        the listed faces. */
    method ReadMaterials(fs: seq<Field>) returns (r: Outcome<Error>)
      modifies this
      ensures Follows(r, MaterialsChunk(old(State()), fs), State())
    {
      var pr := new Reader(fs);
      var c := pr.Get('H');
      if c.Failure? {
        return Fail(Read(c.error));
      }
      r := ReadMaterialList(pr, Num(c.value));
    }

    /** The loop over the `n` SFACE records from the reader's cursor. */
    method ReadMaterialList(pr: Reader, n: nat) returns (r: Outcome<Error>)
      modifies this, pr
      ensures var w := MaterialsFrom(old(faces), old(materials), pr.fs, old(pr.pos), n);
        if w.Success? then r == Pass && State() == old(State()).(faces := w.value.0, materials := w.value.1)
        else r == Fail(w.error)
    {
      ghost var fs := pr.fs;
      ghost var whole := MaterialsFrom(faces, materials, fs, pr.pos, n);
      var i := 0;
      while i < n
        invariant i <= n
        invariant MaterialsFrom(faces, materials, fs, pr.pos, n - i) == whole
        invariant State() == old(State()).(faces := faces, materials := materials)
      {
        ghost var rec := MaterialRecord(faces, materials, fs, pr.pos);
        assert rec.Failure? ==> whole == Failure(rec.error);
        assert rec.Success? ==> whole == MaterialsFrom(rec.value.0, rec.value.1, fs, rec.value.2, n - i - 1);
        var m := ReadMaterial(pr);
        if m.Fail? {
          return m;
        }
        i := i + 1;
      }
      r := Pass;
    }

    /** One SFACE record: the material's index is the number of materials before it. */
    method ReadMaterial(pr: Reader) returns (r: Outcome<Error>)
      modifies this, pr
      ensures var m := MaterialRecord(old(faces), old(materials), pr.fs, old(pr.pos));
        if m.Success? then r == Pass && (faces, materials, pr.pos) == m.value else r == Fail(m.error)
      ensures State() == old(State()).(faces := faces, materials := materials)
    {
      var nm := pr.Get('s');
      if nm.Failure? {
        return Fail(Read(nm.error));
      }
      var midx := |materials|;
      materials := materials + [Text(nm.value)];
      var cnt := pr.Get('I');
      if cnt.Failure? {
        return Fail(Read(cnt.error));
      }
      var fis := pr.GetMany('I', Num(cnt.value));
      if fis.Failure? {
        return Fail(Read(fis.error));
      }
      r := AssignMaterial(Nums(fis.value), midx);
    }

    /** The pass over the edges `es` of one face of group `sg`: an edge seen for the first
        time records `sg`; one recorded with another group records `sg` and is marked seam
        (and not smooth). */
    method MarkFace(edict: map<Edge, nat>, es: seq<Edge>, sg: nat) returns (ed: map<Edge, nat>)
      modifies this
      ensures (ed, seams) == MarkEdges(edict, old(seams), es, sg)
      ensures State() == old(State()).(seams := seams)
    {
      ed := edict;
      var j := 0;
      while j < |es|
        invariant j <= |es|
        invariant MarkEdges(ed, seams, es[j..], sg) == MarkEdges(edict, old(seams), es, sg)
        invariant State() == old(State()).(seams := seams)
      {
        var e := es[j];
        assert es[j..][1..] == es[j + 1..];
        if e !in ed {
          ed := ed[e := sg];
        } else if ed[e] != sg {
          ed := ed[e := sg];
          seams := seams + {e};
        }
        j := j + 1;
      }
    }

    /** `bmf.material_index = midx` for each listed face slot that holds a face. */
    method AssignMaterial(ids: seq<nat>, midx: nat) returns (r: Outcome<Error>)
      modifies this
      ensures AssignFrom(old(faces), ids, midx, 0).Success? ==>
        r == Pass && faces == AssignFrom(old(faces), ids, midx, 0).value
      ensures AssignFrom(old(faces), ids, midx, 0).Failure? ==>
        r == Fail(AssignFrom(old(faces), ids, midx, 0).error)
      ensures State() == old(State()).(faces := faces)
    {
      var k := 0;
      while k < |ids|
        invariant k <= |ids|
        invariant AssignFrom(faces, ids, midx, k) == AssignFrom(old(faces), ids, midx, 0)
        invariant State() == old(State()).(faces := faces)
      {
        if ids[k] >= |faces| {
          return Fail(NoFace(ids[k]));
        }
        if faces[ids[k]].Some? {
          faces := faces[ids[k] := Some(faces[ids[k]].value.(material := midx))];
        }
        k := k + 1;
      }
      r := Pass;
    }

    /** VMAPS2: a u32 count of vertex-map records. */
    method ReadVmaps(fs: seq<Field>) returns (r: Outcome<Error>)
      modifies this
      ensures Follows(r, VmapsChunk(old(State()), fs), State())
    {
      var pr := new Reader(fs);
      var c := pr.Get('I');
      if c.Failure? {
        return Fail(Read(c.error));
      }
      var n := Num(c.value);
      var i := 0;
      ghost var whole := VmapsFrom(State(), fs, pr.pos, n - i);
      assert whole == VmapsChunk(old(State()), fs);
      while i < n
        invariant i <= n
        invariant VmapsFrom(State(), fs, pr.pos, n - i) == whole
      {
        var v := ReadNextVmap(pr, n - i, whole);
        if v.Fail? {
          return v;
        }
        i := i + 1;
      }
      r := Pass;
    }

    /** One pass of the record loop: the record at the cursor decides what is left of the
        `m` records from there. */
    method ReadNextVmap(pr: Reader, ghost m: nat, ghost whole: Result<MeshState, Error>) returns (r: Outcome<Error>)
      requires m > 0 && VmapsFrom(State(), pr.fs, pr.pos, m) == whole
      modifies this, pr
      ensures r.Fail? ==> whole == Failure(r.error)
      ensures r.Pass? ==> VmapsFrom(State(), pr.fs, pr.pos, m - 1) == whole
    {
      VmapsStep(State(), pr.fs, pr.pos, m);
      r := ReadVmap(pr);
    }

    /** One vertex-map record: the header, then by type (`flags & 3`) a UV layer, a vertex
        group with its weights, or the error for an unknown type. */
    method ReadVmap(pr: Reader) returns (r: Outcome<Error>)
      modifies this, pr
      ensures var v := VmapRecord(old(State()), pr.fs, old(pr.pos));
        if v.Success? then r == Pass && State() == v.value.0 && pr.pos == v.value.1 else r == Fail(v.error)
    {
      var n := pr.Get('s');
      if n.Failure? {
        return Fail(Read(n.error));
      }
      var dim := pr.Get('B');
      if dim.Failure? {
        return Fail(Read(dim.error));
      }
      var dc := pr.Get('B');
      if dc.Failure? {
        return Fail(Read(dc.error));
      }
      var fl := pr.Get('B');
      if fl.Failure? {
        return Fail(Read(fl.error));
      }
      var szf := pr.Get('I');
      if szf.Failure? {
        return Fail(Read(szf.error));
      }
      var name, discon, sz := Text(n.value), Num(dc.value) != 0, Num(szf.value);
      var typ := VmapType(Num(fl.value));
      if typ == 0 {
        r := ReadUVMap(pr, name, discon, sz);
      } else if typ == 1 {
        r := ReadWeightMap(pr, name, discon, sz);
      } else {
        r := Fail(UnknownVmapType(typ));
      }
    }

    /** A UV map record after its header. */
    method ReadUVMap(pr: Reader, name: string, discon: bool, sz: nat) returns (r: Outcome<Error>)
      modifies this, pr
      ensures var v := UVMap(old(State()), pr.fs, old(pr.pos), name, discon, sz);
        if v.Success? then r == Pass && State() == v.value.0 && pr.pos == v.value.1 else r == Fail(v.error)
    {
      var uvl := ReadPairs(pr, sz);
      if uvl.Failure? {
        return Fail(Read(uvl.error));
      }
      var vtx := pr.GetMany('I', sz);
      if vtx.Failure? {
        return Fail(Read(vtx.error));
      }
      if discon {
        var fcs := pr.GetMany('I', sz);
        if fcs.Failure? {
          return Fail(Read(fcs.error));
        }
        r := SetDisconUVs(name, uvl.value, Nums(vtx.value), Nums(fcs.value));
      } else {
        r := SetConnUVs(name, uvl.value, Nums(vtx.value));
      }
    }

    /** A weight map record after its header: `bo_mesh.vertex_groups.new(name=n)` first. */
    method ReadWeightMap(pr: Reader, name: string, discon: bool, sz: nat) returns (r: Outcome<Error>)
      modifies this, pr
      ensures var v := WeightMap(old(State()), pr.fs, old(pr.pos), name, discon, sz);
        if v.Success? then r == Pass && State() == v.value.0 && pr.pos == v.value.1 else r == Fail(v.error)
    {
      var vgi := |groups|;
      groups := groups + [name];
      var wgs := pr.GetMany('f', sz);
      if wgs.Failure? {
        return Fail(Read(wgs.error));
      }
      var vtx := pr.GetMany('I', sz);
      if vtx.Failure? {
        return Fail(Read(vtx.error));
      }
      if discon {
        var fcs := pr.GetMany('I', sz);
        if fcs.Failure? {
          return Fail(Read(fcs.error));
        }
        r := Pass;
      } else {
        r := SetWeights(Reals(wgs.value), Nums(vtx.value), vgi);
      }
    }

    /** The disconnected UV map: entry `k` writes the flipped UV to the loop of face `fcs[k]`
        at vertex `vtx[k]` (the first such loop), skipping empty face slots. */
    method SetDisconUVs(n: string, uvl: seq<UV>, vtx: seq<nat>, fcs: seq<nat>) returns (r: Outcome<Error>)
      requires |vtx| == |uvl| && |fcs| == |uvl|
      modifies this
      ensures var d := DisconUVs(LayerOf(old(uvs), n), faces, uvl, vtx, fcs, 0);
        if d.Success? then r == Pass && uvs == old(uvs)[n := d.value] else r == Fail(d.error)
      ensures State() == old(State()).(uvs := uvs)
    {
      var layer := LayerOf(uvs, n);
      ghost var whole := DisconUVs(layer, faces, uvl, vtx, fcs, 0);
      var k := 0;
      while k < |uvl|
        invariant k <= |uvl|
        invariant DisconUVs(layer, faces, uvl, vtx, fcs, k) == whole
      {
        var fi := fcs[k];
        if fi >= |faces| {
          return Fail(NoFace(fi));
        }
        if faces[fi].Some? {
          var vs := faces[fi].value.verts;
          var c := 0;
          while c < |vs|
            invariant c <= |vs|
            invariant forall j :: 0 <= j < c ==> vs[j] != vtx[k]
          {
            if vs[c] == vtx[k] {
              assert Target(faces, fi, vtx[k]) == Some(Loop(fi, c));
              layer := layer[Loop(fi, c) := Flip(uvl[k])];
              break;
            }
            c := c + 1;
          }
        }
        k := k + 1;
      }
      uvs := uvs[n := layer];
      r := Pass;
    }

    /** The connected UV map: entry `k` writes the flipped UV to every loop at vertex
        `vtx[k]`. */
    method SetConnUVs(n: string, uvl: seq<UV>, vtx: seq<nat>) returns (r: Outcome<Error>)
      requires |vtx| == |uvl|
      modifies this
      ensures var d := ConnUVs(LayerOf(old(uvs), n), faces, |verts|, uvl, vtx, 0);
        if d.Success? then r == Pass && uvs == old(uvs)[n := d.value] else r == Fail(d.error)
      ensures State() == old(State()).(uvs := uvs)
    {
      var layer := LayerOf(uvs, n);
      ghost var whole := ConnUVs(layer, faces, |verts|, uvl, vtx, 0);
      var k := 0;
      while k < |uvl|
        invariant k <= |uvl|
        invariant ConnUVs(layer, faces, |verts|, uvl, vtx, k) == whole
        invariant State() == old(State())
      {
        if vtx[k] >= |verts| {
          return Fail(NoVertex(vtx[k]));
        }
        layer := SetLinkLoops(layer, LoopsOf(faces, vtx[k]), Flip(uvl[k]));
        k := k + 1;
      }
      uvs := uvs[n := layer];
      r := Pass;
    }

    /** The connected weight map: `bm.verts[vi][bml][vgi] = w` for each pair. */
    method SetWeights(wgs: seq<real>, vtx: seq<nat>, vgi: nat) returns (r: Outcome<Error>)
      requires |vtx| == |wgs|
      modifies this
      ensures var w := Weigh(old(weights), |verts|, wgs, vtx, vgi, 0);
        if w.Success? then r == Pass && weights == w.value else r == Fail(w.error)
      ensures State() == old(State()).(weights := weights)
    {
      var k := 0;
      while k < |wgs|
        invariant k <= |wgs|
        invariant Weigh(weights, |verts|, wgs, vtx, vgi, k) == Weigh(old(weights), |verts|, wgs, vtx, vgi, 0)
        invariant State() == old(State()).(weights := weights)
      {
        var vi := vtx[k];
        if vi >= |verts| {
          return Fail(NoVertex(vi));
        }
        weights := weights[vi := WeightsOf(weights, vi)[vgi := wgs[k]]];
        k := k + 1;
      }
      r := Pass;
    }
  }

  /** `_import_mesh`: the exact version check, then every later chunk in order; the mesh
      built and the warnings printed. */
  method ImportMesh(cs: seq<Chunk>) returns (r: Result<(MeshState, seq<Warning>), Error>)
    ensures r == ImportMeshSpec(cs)
  {
    var v := CheckVersion(cs, MeshVersion, MeshVersion, MESH_VERSION);
    if v.Failure? {
      return Failure(v.error);
    }
    var b := new MeshBuilder();
    var ws: seq<Warning> := [];
    var k := 1;
    while k < |cs|
      invariant 1 <= k <= |cs|
      invariant MeshChunksFrom(b.State(), cs, k, ws) == MeshChunksFrom(EmptyMesh, cs, 1, [])
    {
      var w := b.ReadChunk(cs[k]);
      if w.Failure? {
        return Failure(w.error);
      }
      ws := ws + w.value;
      k := k + 1;
    }
    r := Success((b.State(), ws));
  }

  /** `for l in bm.verts[vi].link_loops: l[bml].uv = uv`, in whatever order the loops
      `links` of the vertex come. */
  method SetLinkLoops(layer: map<Loop, UV>, links: set<Loop>, uv: UV) returns (res: map<Loop, UV>)
    ensures res == SetLoops(layer, links, uv)
  {
    var todo := links;
    res := layer;
    SetLoopsNone(layer, links, uv);
    while todo != {}
      invariant todo <= links
      invariant res == SetLoops(layer, links - todo, uv)
      decreases |todo|
    {
      var l :| l in todo;
      SetLoopsStep(layer, links, todo, l, uv);
      res := res[l := uv];
      todo := todo - {l};
    }
    assert links - todo == links;
  }

  /** `[pr.getf('ff') for __ in range(n)]`. */
  method ReadPairs(pr: Reader, n: nat) returns (r: Result<seq<UV>, ReadError>)
    modifies pr
    ensures r == UVPairsFrom([], pr.fs, old(pr.pos), n)
    ensures r.Success? ==> pr.pos == old(pr.pos) + 2 * n
  {
    var acc: seq<UV> := [];
    var i := 0;
    while i < n
      invariant i <= n && pr.pos == old(pr.pos) + 2 * i
      invariant UVPairsFrom(acc, pr.fs, pr.pos, n - i) == UVPairsFrom([], pr.fs, old(pr.pos), n)
    {
      var p := pr.GetMany('f', 2);
      if p.Failure? {
        return Failure(p.error);
      }
      acc := acc + [(Real(p.value[0]), Real(p.value[1]))];
      i := i + 1;
    }
    r := Success(acc);
  }
}
