/** The compiled-geometry (OGF) exporter's mesh logic: corner deduplication, bone-weight
    packing, the vertex and index chunk payloads, and the bounding box over an object and
    its descendants. Coordinates and weights are `real`; triangulation, tangents and the
    float encoding are done by the host and arrive as input. */
module Ogf {
  import opened Util
  import opened Packed

  datatype Error =
    | Pack(e: PackError)         // struct.error from putf
    | MissingKey                 // KeyError in max_two: no weight above -1 was found
    | NoInfluences(vert: nat)    // the 'oops' exception, or IndexError on an empty deform vertex
    | ZeroWeightSum(vert: nat)   // ZeroDivisionError in the blend factor
    | NoSuchVertex(vert: nat)    // IndexError on bm.verts
    | NotTriangle(face: nat)     // struct.error from 'HHH' on a face without three corners

  /** A deform vertex: vertex-group index -> weight, in the dictionary's iteration order. */
  type Weights = seq<(nat, real)>

  // ---------------------------------------------------------------------------
  // max_two

  /** The position the scan `for k in dic: if v > mx and k != excl: mx, k0 = v, k` settles on,
      starting from `mx = -1`: the first entry of greatest weight among the keys other than
      `excl`, provided that weight exceeds -1. */
  function Heaviest(d: Weights, excl: Option<nat>): (r: Option<nat>)
    ensures r.Some? ==> r.value < |d|
  {
    if d == [] then None
    else
      var p := Heaviest(d[..|d| - 1], excl);
      var mx := if p.Some? then d[p.value].1 else -1.0;
      if d[|d| - 1].1 > mx && Some(d[|d| - 1].0) != excl then Some(|d| - 1) else p
  }

  /** The scan finds the maximum, the first one met on ties, and finds nothing exactly when
      no eligible weight exceeds -1. */
  lemma {:induction false} HeaviestIsMax(d: Weights, excl: Option<nat>)
    ensures var r := Heaviest(d, excl);
      r.Some? ==> d[r.value].1 > -1.0 && Some(d[r.value].0) != excl
    ensures var r := Heaviest(d, excl);
      r.Some? ==> forall j :: 0 <= j < |d| && Some(d[j].0) != excl ==> d[j].1 <= d[r.value].1
    ensures var r := Heaviest(d, excl);
      r.Some? ==> forall j :: 0 <= j < r.value && Some(d[j].0) != excl ==> d[j].1 < d[r.value].1
    ensures Heaviest(d, excl).None? <==>
      forall j :: 0 <= j < |d| && Some(d[j].0) != excl ==> d[j].1 <= -1.0
  {
    if d != [] {
      var init := d[..|d| - 1];
      HeaviestIsMax(init, excl);
      assert forall j :: 0 <= j < |init| ==> init[j] == d[j];
    }
  }

  /** `max_two(dic)`: the heaviest entry and the heaviest of the others, in that order. */
  function MaxTwoOf(d: Weights): Result<Weights, Error>
  {
    match Heaviest(d, None)
    case None => Failure(MissingKey)
    case Some(p0) =>
      match Heaviest(d, Some(d[p0].0))
      case None => Failure(MissingKey)
      case Some(p1) => Success([d[p0], d[p1]])
  }

  /** `max_two` succeeds exactly when two entries with different keys both weigh more
      than -1. */
  lemma MaxTwoDefined(d: Weights)
    ensures MaxTwoOf(d).Success? <==>
      exists i, j :: 0 <= i < |d| && 0 <= j < |d| && d[i].0 != d[j].0 && d[i].1 > -1.0 && d[j].1 > -1.0
  {
    HeaviestIsMax(d, None);
    var p0 := Heaviest(d, None);
    if p0.Some? {
      HeaviestIsMax(d, Some(d[p0.value].0));
      var p1 := Heaviest(d, Some(d[p0.value].0));
      if p1.Some? {
        assert d[p0.value].0 != d[p1.value].0;
      }
    }
  }

  /** The result is a two-key sub-dictionary with the values copied unchanged; its first key
      carries the greatest weight, and no discarded weight exceeds the second one. */
  lemma MaxTwoSubMap(d: Weights)
    requires MaxTwoOf(d).Success?
    ensures var r := MaxTwoOf(d).value;
      && |r| == 2 && r[0].0 != r[1].0
      && r[0] in d && r[1] in d
      && r[1].1 <= r[0].1
      && (forall j :: 0 <= j < |d| ==> d[j].1 <= r[0].1)
      && (forall j :: 0 <= j < |d| && d[j].0 != r[0].0 ==> d[j].1 <= r[1].1)
  {
    HeaviestIsMax(d, None);
    var p0 := Heaviest(d, None).value;
    HeaviestIsMax(d, Some(d[p0].0));
  }

  /** Ties go to the key met first: no entry before the chosen ones weighs as much. */
  lemma MaxTwoFirstOnTies(d: Weights)
    requires MaxTwoOf(d).Success?
    ensures var p0 := Heaviest(d, None).value;
      d[p0] == MaxTwoOf(d).value[0] && forall j :: 0 <= j < p0 ==> d[j].1 < d[p0].1
    ensures var p0 := Heaviest(d, None).value; var p1 := Heaviest(d, Some(d[p0].0)).value;
      d[p1] == MaxTwoOf(d).value[1] &&
      forall j :: 0 <= j < p1 && d[j].0 != d[p0].0 ==> d[j].1 < d[p1].1
  {
    HeaviestIsMax(d, None);
    var p0 := Heaviest(d, None).value;
    HeaviestIsMax(d, Some(d[p0].0));
  }

  /** `max_two` as the two scans the source makes; the second rejects the first one's key. */
  method MaxTwo(d: Weights) returns (r: Result<Weights, Error>)
    ensures r == MaxTwoOf(d)
  {
    var k0: Option<nat> := None;
    var w0 := -1.0;
    ghost var p0: Option<nat> := None;
    var i := 0;
    while i < |d|
      invariant 0 <= i <= |d|
      invariant p0 == Heaviest(d[..i], None)
      invariant p0.Some? ==> p0.value < i && k0 == Some(d[p0.value].0) && w0 == d[p0.value].1
      invariant p0.None? ==> k0.None? && w0 == -1.0
    {
      assert d[..i + 1][..i] == d[..i];
      if d[i].1 > w0 {
        w0 := d[i].1;
        k0 := Some(d[i].0);
        p0 := Some(i);
      }
      i := i + 1;
    }
    assert d[..|d|] == d;
    if k0.None? {
      return Failure(MissingKey);
    }
    var k1: Option<nat> := None;
    var w1 := -1.0;
    ghost var p1: Option<nat> := None;
    i := 0;
    while i < |d|
      invariant 0 <= i <= |d|
      invariant p1 == Heaviest(d[..i], k0)
      invariant p1.Some? ==> p1.value < i && k1 == Some(d[p1.value].0) && w1 == d[p1.value].1
      invariant p1.None? ==> k1.None? && w1 == -1.0
    {
      assert d[..i + 1][..i] == d[..i];
      if d[i].1 > w1 && Some(d[i].0) != k0 {
        w1 := d[i].1;
        k1 := Some(d[i].0);
        p1 := Some(i);
      }
      i := i + 1;
    }
    assert d[..|d|] == d;
    if k1.None? {
      return Failure(MissingKey);
    }
    r := Success([(k0.value, w0), (k1.value, w1)]);
  }

  // ---------------------------------------------------------------------------
  // Bone slots and blend factor of one vertex

  /** The influences a vertex of deform weights `vw` keeps (`vert` names the vertex in
      errors): more than two are cut down by `max_two`, none raises. */
  function Slots(vw: Weights, vert: nat): (r: Result<Weights, Error>)
    ensures r.Success? ==> |r.value| == 1 || |r.value| == 2
  {
    if |vw| > 2 then MaxTwoOf(vw)
    else if |vw| == 0 then Failure(NoInfluences(vert))
    else Success(vw)
  }

  /** The blend factor: `1 - w0 / (w0 + w1)` for two influences, 0 for one. */
  function Blend(two: Weights, vert: nat): Result<real, Error>
    requires |two| == 1 || |two| == 2
  {
    if |two| == 1 then Success(0.0)
    else if two[0].1 + two[1].1 == 0.0 then Failure(ZeroWeightSum(vert))
    else Success(1.0 - two[0].1 / (two[0].1 + two[1].1))
  }

  /** The two bone slots and the blend factor of a vertex. */
  function Influences(vw: Weights, vert: nat): Result<(nat, nat, real), Error>
  {
    var two :- Slots(vw, vert);
    var bw :- Blend(two, vert);
    Success((two[0].0, two[|two| - 1].0, bw))
  }

  /** The cases of the bone-slot record as the exporter writes them: no influence raises;
      one gives that bone twice and `bw = 0`; two give both bones in iteration order and
      `bw = 1 - w0 / (w0 + w1)`; more give the two `max_two` keeps, heaviest first. */
  lemma InfluenceCases(vw: Weights, vert: nat)
    ensures |vw| == 0 ==> Influences(vw, vert) == Failure(NoInfluences(vert))
    ensures |vw| == 1 ==> Influences(vw, vert) == Success((vw[0].0, vw[0].0, 0.0))
    ensures |vw| == 2 && vw[0].1 + vw[1].1 != 0.0 ==>
      Influences(vw, vert) == Success((vw[0].0, vw[1].0, 1.0 - vw[0].1 / (vw[0].1 + vw[1].1)))
    ensures |vw| == 2 && vw[0].1 + vw[1].1 == 0.0 ==> Influences(vw, vert) == Failure(ZeroWeightSum(vert))
    ensures |vw| > 2 && Influences(vw, vert).Success? ==>
      && MaxTwoOf(vw).Success?
      && Influences(vw, vert).value.0 == MaxTwoOf(vw).value[0].0
      && Influences(vw, vert).value.1 == MaxTwoOf(vw).value[1].0
  {
  }

  /** With non-negative weights the blend factor is the second bone's share of the total,
      so it lies in [0, 1]. */
  lemma BlendFactorIsShare(vw: Weights, vert: nat)
    requires |vw| == 2 && vw[0].1 >= 0.0 && vw[1].1 >= 0.0
    requires Influences(vw, vert).Success?
    ensures var bw := Influences(vw, vert).value.2;
      bw == vw[1].1 / (vw[0].1 + vw[1].1) && 0.0 <= bw <= 1.0
  {
    var w0, w1 := vw[0].1, vw[1].1;
    var s := w0 + w1;
    assert s > 0.0;
    assert w0 / s + w1 / s == s / s;
    assert s / s == 1.0;
    assert w1 / s <= s / s;
  }

  // ---------------------------------------------------------------------------
  // The maximum influence count

  /** Influence count of the busiest source vertex, 0 for none. */
  function MaxCount(weights: seq<Weights>): nat
  {
    if weights == [] then 0
    else
      var m := MaxCount(weights[..|weights| - 1]);
      if |weights[|weights| - 1]| > m then |weights[|weights| - 1]| else m
  }

  lemma {:induction false} MaxCountIsMax(weights: seq<Weights>)
    ensures forall v :: 0 <= v < |weights| ==> |weights[v]| <= MaxCount(weights)
    ensures weights == [] ==> MaxCount(weights) == 0
    ensures weights != [] ==> exists v :: 0 <= v < |weights| && |weights[v]| == MaxCount(weights)
  {
    if weights != [] {
      var init := weights[..|weights| - 1];
      MaxCountIsMax(init);
      assert forall v :: 0 <= v < |init| ==> init[v] == weights[v];
    }
  }

  /** The `vwmx` loop over the source vertices. */
  method MaxInfluences(weights: seq<Weights>) returns (vwmx: nat)
    ensures vwmx == MaxCount(weights)
  {
    vwmx := 0;
    var i := 0;
    while i < |weights|
      invariant 0 <= i <= |weights|
      invariant vwmx == MaxCount(weights[..i])
    {
      assert weights[..i + 1][..i] == weights[..i];
      if |weights[i]| > vwmx {
        vwmx := |weights[i]|;
      }
      i := i + 1;
    }
    assert weights[..|weights|] == weights;
  }

  // ---------------------------------------------------------------------------
  // Corner deduplication

  type Vec3 = (real, real, real)

  /** One corner (loop) of a triangulated face, with the per-corner attributes the host
      computed: the source vertex, its position, the split normal, the tangent, the
      normalized bitangent and the active UV. */
  datatype Corner = Corner(vert: nat, co: Vec3, normal: Vec3, tangent: Vec3, bitangent: Vec3, uv: (real, real))

  /** The `vtx` tuple a corner is deduplicated on: the source vertex index is part of it,
      and the UV is stored with V flipped. */
  datatype VertexKey = VertexKey(vert: nat, co: Vec3, normal: Vec3, tangent: Vec3, bitangent: Vec3, uv: (real, real))

  function KeyOf(c: Corner): VertexKey
  {
    VertexKey(c.vert, c.co, c.normal, c.tangent, c.bitangent, (c.uv.0, 1.0 - c.uv.1))
  }

  /** The V flip loses nothing: two corners get the same key only when they are equal. */
  lemma KeyOfInjective(a: Corner, b: Corner)
    ensures KeyOf(a) == KeyOf(b) <==> a == b
  {
    if KeyOf(a) == KeyOf(b) {
      assert a.uv.1 == 1.0 - KeyOf(a).uv.1;
    }
  }

  function FaceKeys(f: seq<Corner>): seq<VertexKey>
  {
    seq(|f|, i requires 0 <= i < |f| => KeyOf(f[i]))
  }

  /** The keys of all corners, face after face. */
  function CornerKeys(faces: seq<seq<Corner>>): seq<VertexKey>
  {
    if faces == [] then [] else CornerKeys(faces[..|faces| - 1]) + FaceKeys(faces[|faces| - 1])
  }

  /** The keys in order of first use, each once: the order `vertices` is built in. */
  function FirstUse(ks: seq<VertexKey>): seq<VertexKey>
  {
    if ks == [] then []
    else
      var p := FirstUse(ks[..|ks| - 1]);
      if ks[|ks| - 1] in p then p else p + [ks[|ks| - 1]]
  }

  lemma {:induction false} FirstUseKeys(ks: seq<VertexKey>)
    ensures Distinct(FirstUse(ks))
    ensures forall k :: k in FirstUse(ks) <==> k in ks
  {
    if ks != [] {
      FirstUseKeys(ks[..|ks| - 1]);
      assert ks == ks[..|ks| - 1] + [ks[|ks| - 1]];
    }
  }

  lemma FirstUseSnoc(ks: seq<VertexKey>, k: VertexKey)
    ensures FirstUse(ks + [k]) == if k in FirstUse(ks) then FirstUse(ks) else FirstUse(ks) + [k]
  {
    assert (ks + [k])[..|ks|] == ks;
  }

  /** `vmap` and `vertices` agree: each key maps to its own position. */
  ghost predicate Positions(vmap: map<VertexKey, nat>, vertices: seq<VertexKey>)
  {
    && (forall k :: k in vmap ==> vmap[k] < |vertices| && vertices[vmap[k]] == k)
    && (forall i :: 0 <= i < |vertices| ==> vertices[i] in vmap && vmap[vertices[i]] == i)
  }

  lemma PositionsMembers(vmap: map<VertexKey, nat>, vertices: seq<VertexKey>, k: VertexKey)
    requires Positions(vmap, vertices)
    ensures k in vmap <==> k in vertices
  {
    if k in vertices {
      var i :| 0 <= i < |vertices| && vertices[i] == k;
    }
  }

  lemma PositionsAppend(vmap: map<VertexKey, nat>, vertices: seq<VertexKey>, k: VertexKey)
    requires Positions(vmap, vertices) && k !in vmap
    ensures Positions(vmap[k := |vertices|], vertices + [k])
  {
    var m, vs := vmap[k := |vertices|], vertices + [k];
    forall j | 0 <= j < |vs| ensures vs[j] in m && m[vs[j]] == j {
      if j < |vertices| {
        assert vs[j] == vertices[j];
      }
    }
  }

  /** `vmap.get(vtx)`, appending the key when it is new. */
  method Intern(vtx: VertexKey, vertices0: seq<VertexKey>, vmap0: map<VertexKey, nat>,
                ghost seen: seq<VertexKey>)
    returns (vertices: seq<VertexKey>, vmap: map<VertexKey, nat>, vi: nat)
    requires vertices0 == FirstUse(seen) && Positions(vmap0, vertices0)
    ensures vertices == FirstUse(seen + [vtx]) && Positions(vmap, vertices)
    ensures vertices == vertices0 || vertices == vertices0 + [vtx]
    ensures vi < |vertices| && vertices[vi] == vtx
  {
    FirstUseSnoc(seen, vtx);
    PositionsMembers(vmap0, vertices0, vtx);
    if vtx in vmap0 {
      vertices, vmap, vi := vertices0, vmap0, vmap0[vtx];
    } else {
      PositionsAppend(vmap0, vertices0, vtx);
      vi := |vertices0|;
      vmap := vmap0[vtx := vi];
      vertices := vertices0 + [vtx];
    }
  }

  /** The inner loop over one face's corners. `seen` are the keys of the corners before. */
  method InternFace(f: seq<Corner>, vertices0: seq<VertexKey>, vmap0: map<VertexKey, nat>,
                    ghost seen: seq<VertexKey>)
    returns (vertices: seq<VertexKey>, vmap: map<VertexKey, nat>, ii: seq<nat>)
    requires vertices0 == FirstUse(seen) && Positions(vmap0, vertices0)
    ensures vertices == FirstUse(seen + FaceKeys(f)) && Positions(vmap, vertices)
    ensures vertices0 <= vertices
    ensures |ii| == |f|
    ensures forall l :: 0 <= l < |f| ==> ii[l] < |vertices| && vertices[ii[l]] == KeyOf(f[l])
  {
    ghost var ks := FaceKeys(f);
    ghost var acc := seen;
    vertices, vmap, ii := vertices0, vmap0, [];
    var li := 0;
    while li < |f|
      invariant 0 <= li <= |f|
      invariant acc == seen + ks[..li]
      invariant vertices == FirstUse(acc) && Positions(vmap, vertices)
      invariant vertices0 <= vertices
      invariant |ii| == li
      invariant forall l :: 0 <= l < li ==> ii[l] < |vertices| && vertices[ii[l]] == ks[l]
    {
      var vtx := KeyOf(f[li]);
      assert vtx == ks[li];
      ghost var before, ii0 := vertices, ii;
      var vi;
      vertices, vmap, vi := Intern(vtx, vertices, vmap, acc);
      ii := ii + [vi];
      IndicesExtend(before, vertices, ii0, vi, ks, li);
      PrefixSnoc(seen, ks, li);
      acc := acc + [vtx];
      li := li + 1;
    }
    assert ks[..|f|] == ks;
  }

  lemma PrefixSnoc<T>(seen: seq<T>, ks: seq<T>, li: nat)
    requires li < |ks|
    ensures seen + ks[..li] + [ks[li]] == seen + ks[..li + 1]
  {
    assert ks[..li + 1] == ks[..li] + [ks[li]];
  }

  /** The corner indices stay right when the vertex list grows at its end and the new
      corner's index is appended. */
  lemma IndicesExtend(before: seq<VertexKey>, vertices: seq<VertexKey>, ii0: seq<nat>, vi: nat,
                      ks: seq<VertexKey>, li: nat)
    requires before <= vertices && |ii0| == li < |ks|
    requires forall l :: 0 <= l < li ==> ii0[l] < |before| && before[ii0[l]] == ks[l]
    requires vi < |vertices| && vertices[vi] == ks[li]
    ensures forall l :: 0 <= l <= li ==> (ii0 + [vi])[l] < |vertices| && vertices[(ii0 + [vi])[l]] == ks[l]
  {
    forall l | 0 <= l <= li
      ensures (ii0 + [vi])[l] < |vertices| && vertices[(ii0 + [vi])[l]] == ks[l]
    {
      if l < li {
        assert (ii0 + [vi])[l] == ii0[l] && before[ii0[l]] == ks[l];
      }
    }
  }

  /** The dedup loop: `vmap` maps each key seen so far to its position in `vertices`, a
      new key is appended, and every corner's index is its key's position. */
  method BuildVertices(faces: seq<seq<Corner>>) returns (vertices: seq<VertexKey>, indices: seq<seq<nat>>)
    ensures vertices == FirstUse(CornerKeys(faces))
    ensures Distinct(vertices)
    ensures |indices| == |faces|
    ensures forall f :: 0 <= f < |faces| ==> |indices[f]| == |faces[f]|
    ensures forall f, l :: 0 <= f < |faces| && 0 <= l < |faces[f]| ==>
      indices[f][l] < |vertices| && vertices[indices[f][l]] == KeyOf(faces[f][l])
    ensures forall f, l, g, m :: 0 <= f < |faces| && 0 <= l < |faces[f]| && 0 <= g < |faces| && 0 <= m < |faces[g]| ==>
      (indices[f][l] == indices[g][m] <==> KeyOf(faces[f][l]) == KeyOf(faces[g][m]))
  {
    var vmap: map<VertexKey, nat> := map[];
    vertices := [];
    indices := [];
    var fi := 0;
    while fi < |faces|
      invariant 0 <= fi <= |faces|
      invariant Built(faces, fi, vertices, vmap, indices)
    {
      vertices, vmap, indices := AddFace(faces, fi, vertices, vmap, indices);
      fi := fi + 1;
    }
    assert faces[..|faces|] == faces;
    FirstUseKeys(CornerKeys(faces));
    IndicesMatchKeys(faces, vertices, indices);
  }

  /** The state of the dedup loop after the first `fi` faces. */
  ghost predicate Built(faces: seq<seq<Corner>>, fi: nat, vertices: seq<VertexKey>, vmap: map<VertexKey, nat>,
                        indices: seq<seq<nat>>)
    requires fi <= |faces|
  {
    && vertices == FirstUse(CornerKeys(faces[..fi])) && Positions(vmap, vertices)
    && |indices| == fi
    && (forall f :: 0 <= f < fi ==> |indices[f]| == |faces[f]|)
    && (forall f, l :: 0 <= f < fi && 0 <= l < |faces[f]| ==>
          indices[f][l] < |vertices| && vertices[indices[f][l]] == KeyOf(faces[f][l]))
  }

  /** One pass of the outer loop: face `fi`'s corners are interned and its indices
      appended. */
  method AddFace(faces: seq<seq<Corner>>, fi: nat, vertices0: seq<VertexKey>, vmap0: map<VertexKey, nat>,
                 indices0: seq<seq<nat>>)
    returns (vertices: seq<VertexKey>, vmap: map<VertexKey, nat>, indices: seq<seq<nat>>)
    requires fi < |faces| && Built(faces, fi, vertices0, vmap0, indices0)
    ensures Built(faces, fi + 1, vertices, vmap, indices)
  {
    var ii;
    CornerKeysSnoc(faces, fi);
    vertices, vmap, ii := InternFace(faces[fi], vertices0, vmap0, CornerKeys(faces[..fi]));
    indices := indices0 + [ii];
    FaceIndicesExtend(faces, vertices0, vertices, indices0, indices, fi);
  }

  lemma CornerKeysSnoc(faces: seq<seq<Corner>>, fi: nat)
    requires fi < |faces|
    ensures CornerKeys(faces[..fi + 1]) == CornerKeys(faces[..fi]) + FaceKeys(faces[fi])
  {
    assert faces[..fi + 1][..fi] == faces[..fi];
  }

  /** The indices of the faces before stay right when the vertex list grows at its end and
      face `fi`'s indices are appended. */
  lemma FaceIndicesExtend(faces: seq<seq<Corner>>, before: seq<VertexKey>, vertices: seq<VertexKey>,
                          indices0: seq<seq<nat>>, indices: seq<seq<nat>>, fi: nat)
    requires fi < |faces| && |indices0| == fi && before <= vertices
    requires |indices| == fi + 1 && indices == indices0 + [indices[fi]]
    requires forall f :: 0 <= f <= fi ==> |indices[f]| == |faces[f]|
    requires forall f, l :: 0 <= f < fi && 0 <= l < |faces[f]| ==>
      indices0[f][l] < |before| && before[indices0[f][l]] == KeyOf(faces[f][l])
    requires forall l :: 0 <= l < |faces[fi]| ==> indices[fi][l] < |vertices| && vertices[indices[fi][l]] == KeyOf(faces[fi][l])
    ensures forall f, l :: 0 <= f <= fi && 0 <= l < |faces[f]| ==>
      indices[f][l] < |vertices| && vertices[indices[f][l]] == KeyOf(faces[f][l])
  {
    forall f, l | 0 <= f <= fi && 0 <= l < |faces[f]|
      ensures indices[f][l] < |vertices| && vertices[indices[f][l]] == KeyOf(faces[f][l])
    {
      if f < fi {
        assert indices[f] == indices0[f] && before[indices0[f][l]] == KeyOf(faces[f][l]);
      }
    }
  }

  /** With no repeats in the vertex list, two corners share an index exactly when they
      share a key. */
  lemma IndicesMatchKeys(faces: seq<seq<Corner>>, vertices: seq<VertexKey>, indices: seq<seq<nat>>)
    requires Distinct(vertices) && |indices| == |faces|
    requires forall f :: 0 <= f < |faces| ==> |indices[f]| == |faces[f]|
    requires forall f, l :: 0 <= f < |faces| && 0 <= l < |faces[f]| ==>
      indices[f][l] < |vertices| && vertices[indices[f][l]] == KeyOf(faces[f][l])
    ensures forall f, l, g, m :: 0 <= f < |faces| && 0 <= l < |faces[f]| && 0 <= g < |faces| && 0 <= m < |faces[g]| ==>
      (indices[f][l] == indices[g][m] <==> KeyOf(faces[f][l]) == KeyOf(faces[g][m]))
  {
    forall f, l, g, m | 0 <= f < |faces| && 0 <= l < |faces[f]| && 0 <= g < |faces| && 0 <= m < |faces[g]|
      ensures indices[f][l] == indices[g][m] <==> KeyOf(faces[f][l]) == KeyOf(faces[g][m])
    {
      DistinctPositions(vertices, indices[f][l], indices[g][m]);
    }
  }

  /** In a list without repeats, two positions hold the same key only when they are one. */
  lemma DistinctPositions(vs: seq<VertexKey>, i: nat, j: nat)
    requires Distinct(vs) && i < |vs| && j < |vs|
    ensures vs[i] == vs[j] <==> i == j
  {
    if i < j {
      assert vs[i] != vs[j];
    } else if j < i {
      assert vs[j] != vs[i];
    }
  }

  // ---------------------------------------------------------------------------
  // The vertex chunk (id 0x3)

  /** `struct.error` as an exporter error. */
  function Lift(r: Result<Field, PackError>): (l: Result<Field, Error>)
    ensures r.Success? <==> l.Success?
    ensures r.Success? ==> l.value == r.value
  {
    match r
    case Success(f) => Success(f)
    case Failure(e) => Failure(Pack(e))
  }

  /** The four float triples every vertex record carries. */
  function Attributes(v: VertexKey): seq<Field>
  {
    Floats3(v.co) + Floats3(v.normal) + Floats3(v.tangent) + Floats3(v.bitangent)
  }

  /** The record of one output vertex. With `vwmx == 1` it is the attributes, the UV and the
      first group index as a u32; otherwise `BlendedRecord`. */
  function VertexRecord(v: VertexKey, weights: seq<Weights>, vwmx: nat): Result<seq<Field>, Error>
  {
    if v.vert >= |weights| then Failure(NoSuchVertex(v.vert))
    else if vwmx == 1 then SingleRecord(v, weights[v.vert])
    else BlendedRecord(v, weights[v.vert])
  }

  function SingleRecord(v: VertexKey, vw: Weights): Result<seq<Field>, Error>
  {
    if |vw| == 0 then Failure(NoInfluences(v.vert))
    else
      var b :- Lift(PackU32(vw[0].0));
      Success(Attributes(v) + [F32(v.uv.0), F32(v.uv.1)] + [b])
  }

  function BlendedRecord(v: VertexKey, vw: Weights): Result<seq<Field>, Error>
  {
    var two :- Slots(vw, v.vert);
    SlotsRecord(v, two)
  }

  /** Two bone slots as u16, the attributes, the blend factor, the UV; errors come in the
      order the writes make them. */
  function SlotsRecord(v: VertexKey, two: Weights): Result<seq<Field>, Error>
    requires |two| == 1 || |two| == 2
  {
    var b0 :- Lift(PackU16(two[0].0));
    var b1 :- Lift(PackU16(two[|two| - 1].0));
    var bw :- Blend(two, v.vert);
    Success([b0, b1] + SlotsTail(v, bw))
  }

  /** What follows the bone slots: the attributes, the blend factor, the UV. */
  function SlotsTail(v: VertexKey, bw: real): seq<Field>
  {
    Attributes(v) + [F32(bw)] + [F32(v.uv.0), F32(v.uv.1)]
  }

  /** The record size: 15 fields with one bone index, 17 with bone slots and blend factor. */
  function RecordSize(vwmx: nat): nat
  {
    if vwmx == 1 then 15 else 17
  }

  /** What a vertex record holds: its size and, for blended records, the bone slots and
      the blend factor `Influences` gives, all bone indices within u16. */
  lemma VertexRecordContents(v: VertexKey, weights: seq<Weights>, vwmx: nat)
    requires VertexRecord(v, weights, vwmx).Success?
    ensures var rec := VertexRecord(v, weights, vwmx).value;
      |rec| == RecordSize(vwmx) && v.vert < |weights|
    ensures var rec := VertexRecord(v, weights, vwmx).value;
      vwmx == 1 ==>
        (|weights[v.vert]| > 0 && rec[14] == U32(weights[v.vert][0].0)
         && rec[12] == F32(v.uv.0) && rec[13] == F32(v.uv.1))
    ensures var rec := VertexRecord(v, weights, vwmx).value;
      vwmx != 1 ==>
        var inf := Influences(weights[v.vert], v.vert);
        && inf.Success?
        && rec[0] == U16(inf.value.0) && rec[1] == U16(inf.value.1)
        && inf.value.0 < U16_LIMIT && inf.value.1 < U16_LIMIT
        && rec[14] == F32(inf.value.2)
        && rec[15] == F32(v.uv.0) && rec[16] == F32(v.uv.1)
  {
  }

  /** A writer of one record; `RecordOf` is the one the exporter uses. The record loop is
      stated over any such writer. */
  type RecordFn = VertexKey -> Result<seq<Field>, Error>

  function RecordOf(weights: seq<Weights>, vwmx: nat): RecordFn
  {
    (v: VertexKey) => VertexRecord(v, weights, vwmx)
  }

  lemma RecordOfIs(weights: seq<Weights>, vwmx: nat, v: VertexKey)
    ensures RecordOf(weights, vwmx)(v) == VertexRecord(v, weights, vwmx)
  {
  }

  /** The records of `vs`, in order; the first error stops the export. */
  function Records(rec: RecordFn, vs: seq<VertexKey>): Result<seq<Field>, Error>
  {
    if vs == [] then Success([])
    else
      var prev :- Records(rec, vs[..|vs| - 1]);
      var last :- rec(vs[|vs| - 1]);
      Success(prev + last)
  }

  /** The vertex chunk: the `(0x240e3300, count)` header unless `vwmx == 1`, then the
      records. */
  function VertexChunk(vertices: seq<VertexKey>, weights: seq<Weights>, vwmx: nat): Result<seq<Field>, Error>
  {
    var header :- if vwmx == 1 then Success([])
      else
        var n :- Lift(PackU32(|vertices|));
        Success([U32(0x240e3300), n]);
    var body :- Records(RecordOf(weights, vwmx), vertices);
    Success(header + body)
  }

  /** Every record `rec` writes has `k` fields. */
  ghost predicate FixedSize(rec: RecordFn, k: nat)
  {
    forall v :: rec(v).Success? ==> |rec(v).value| == k
  }

  /** Record `j` sits at `j * k` and is the record of `vs[j]`. */
  lemma RecordsLayout(rec: RecordFn, vs: seq<VertexKey>, k: nat)
    requires FixedSize(rec, k)
    requires Records(rec, vs).Success?
    ensures |Records(rec, vs).value| == |vs| * k
    ensures forall j :: 0 <= j < |vs| ==>
      rec(vs[j]).Success? && j * k + k <= |Records(rec, vs).value| &&
      Records(rec, vs).value[j * k..j * k + k] == rec(vs[j]).value
  {
    RecordsLength(rec, vs, k);
    forall j | 0 <= j < |vs|
      ensures rec(vs[j]).Success? && j * k + k <= |Records(rec, vs).value| &&
        Records(rec, vs).value[j * k..j * k + k] == rec(vs[j]).value
    {
      RecordAt(rec, vs, k, j);
    }
  }

  /** The records of `vs` take `|vs| * k` fields. */
  lemma {:induction false} RecordsLength(rec: RecordFn, vs: seq<VertexKey>, k: nat)
    requires FixedSize(rec, k)
    requires Records(rec, vs).Success?
    ensures |Records(rec, vs).value| == |vs| * k
  {
    if vs != [] {
      RecordsLength(rec, vs[..|vs| - 1], k);
      MulSucc(|vs| - 1, |vs|, k);
    }
  }

  /** Record `j` alone. */
  lemma {:induction false} RecordAt(rec: RecordFn, vs: seq<VertexKey>, k: nat, j: nat)
    requires FixedSize(rec, k)
    requires Records(rec, vs).Success? && j < |vs|
    ensures rec(vs[j]).Success? && j * k + k <= |Records(rec, vs).value| &&
      Records(rec, vs).value[j * k..j * k + k] == rec(vs[j]).value
  {
    var init := vs[..|vs| - 1];
    var prev := Records(rec, init).value;
    var last := rec(vs[|vs| - 1]).value;
    RecordsLength(rec, init, k);
    MulNat(j, k);
    if j < |init| {
      RecordAt(rec, init, k, j);
      assert init[j] == vs[j];
      SliceOfLeft(prev, last, j * k, j * k + k);
    } else {
      assert j == |init|;
      SliceOfRight(prev, last);
    }
  }

  lemma MulSucc(a: nat, b: nat, k: nat)
    requires b == a + 1
    ensures b * k == a * k + k
  {
  }

  lemma MulNat(j: nat, k: nat)
    ensures 0 <= j * k
  {
  }

  lemma SliceOfLeft<T>(a: seq<T>, b: seq<T>, p: nat, q: nat)
    requires p <= q <= |a|
    ensures (a + b)[p..q] == a[p..q]
  {
  }

  lemma SliceOfRight<T>(a: seq<T>, b: seq<T>)
    ensures (a + b)[|a|..|a| + |b|] == b
  {
  }

  /** A record that cannot be written fails the whole chunk. */
  lemma {:induction false} RecordsFail(rec: RecordFn, vs: seq<VertexKey>, j: nat)
    requires j < |vs| && rec(vs[j]).Failure?
    ensures Records(rec, vs).Failure?
  {
    if j < |vs| - 1 {
      RecordsFail(rec, vs[..|vs| - 1], j);
    }
  }

  /** The chunk reports the error of the first record that cannot be written. */
  lemma {:induction false} RecordsFirstFailure(rec: RecordFn, vs: seq<VertexKey>, i: nat)
    requires i < |vs|
    requires Records(rec, vs[..i]).Success?
    requires rec(vs[i]).Failure?
    ensures Records(rec, vs) == Failure(rec(vs[i]).error)
  {
    if i < |vs| - 1 {
      var init := vs[..|vs| - 1];
      assert init[..i] == vs[..i] && init[i] == vs[i];
      RecordsFirstFailure(rec, init, i);
    } else {
      assert vs[..|vs| - 1] == vs[..i];
    }
  }

  lemma RecordsStep(rec: RecordFn, vs: seq<VertexKey>, i: nat)
    requires i < |vs|
    requires Records(rec, vs[..i]).Success?
    requires rec(vs[i]).Success?
    ensures Records(rec, vs[..i + 1]) == Success(Records(rec, vs[..i]).value + rec(vs[i]).value)
  {
    assert vs[..i + 1][..i] == vs[..i];
  }

  lemma RecordOfFixedSize(weights: seq<Weights>, vwmx: nat)
    ensures FixedSize(RecordOf(weights, vwmx), RecordSize(vwmx))
  {
    forall v | RecordOf(weights, vwmx)(v).Success?
      ensures |RecordOf(weights, vwmx)(v).value| == RecordSize(vwmx)
    {
      VertexRecordContents(v, weights, vwmx);
    }
  }

  /** The layout of the vertex chunk: with `vwmx != 1` it starts with the u32 pair
      `(0x240e3300, len(vertices))`; with `vwmx == 1` there is no header. */
  lemma VertexChunkLayout(vertices: seq<VertexKey>, weights: seq<Weights>, vwmx: nat)
    requires VertexChunk(vertices, weights, vwmx).Success?
    ensures var c := VertexChunk(vertices, weights, vwmx).value;
      vwmx == 1 ==> |c| == 15 * |vertices| && c == Records(RecordOf(weights, vwmx), vertices).value
    ensures var c := VertexChunk(vertices, weights, vwmx).value;
      vwmx != 1 ==>
        (|c| == 2 + 17 * |vertices| && c[0] == U32(0x240e3300) && c[1] == U32(|vertices|)
         && c[2..] == Records(RecordOf(weights, vwmx), vertices).value)
  {
    RecordOfFixedSize(weights, vwmx);
    RecordsLayout(RecordOf(weights, vwmx), vertices, RecordSize(vwmx));
  }

  /** With blended records, a used vertex without influences makes the export fail. */
  lemma UnweightedVertexFails(vertices: seq<VertexKey>, weights: seq<Weights>, vwmx: nat, j: nat)
    requires vwmx != 1 && j < |vertices| && vertices[j].vert < |weights|
    requires |weights[vertices[j].vert]| == 0
    ensures VertexChunk(vertices, weights, vwmx).Failure?
  {
    RecordOfIs(weights, vwmx, vertices[j]);
    RecordsFail(RecordOf(weights, vwmx), vertices, j);
  }

  /** Writes one vertex record. */
  method WriteVertex(pw: Writer, v: VertexKey, weights: seq<Weights>, vwmx: nat) returns (r: Outcome<Error>)
    modifies pw
    ensures r.Pass? <==> VertexRecord(v, weights, vwmx).Success?
    ensures r.Pass? ==> pw.fields == old(pw.fields) + VertexRecord(v, weights, vwmx).value
    ensures r.Fail? ==> r.error == VertexRecord(v, weights, vwmx).error
  {
    if v.vert >= |weights| {
      return Fail(NoSuchVertex(v.vert));
    }
    if vwmx == 1 {
      r := WriteSingle(pw, v, weights[v.vert]);
    } else {
      r := WriteBlended(pw, v, weights[v.vert]);
    }
  }

  method WriteAttributes(pw: Writer, v: VertexKey)
    modifies pw
    ensures pw.fields == old(pw.fields) + Attributes(v)
  {
    pw.PutF32x3(v.co);
    pw.PutF32x3(v.normal);
    pw.PutF32x3(v.tangent);
    pw.PutF32x3(v.bitangent);
  }

  /** The `vwmx == 1` record: `vw.keys()[0]` raises on a vertex without influences. */
  method WriteSingle(pw: Writer, v: VertexKey, vw: Weights) returns (r: Outcome<Error>)
    modifies pw
    ensures r.Pass? <==> SingleRecord(v, vw).Success?
    ensures r.Pass? ==> pw.fields == old(pw.fields) + SingleRecord(v, vw).value
    ensures r.Fail? ==> r.error == SingleRecord(v, vw).error
  {
    WriteAttributes(pw, v);
    pw.PutF32(v.uv.0);
    pw.PutF32(v.uv.1);
    if |vw| == 0 {
      return Fail(NoInfluences(v.vert));
    }
    var ok := pw.PutU32(vw[0].0);
    if ok.Fail? {
      return Fail(Pack(ok.error));
    }
    r := Pass;
  }

  /** The blended record: `max_two` first when there are more than two influences. */
  method WriteBlended(pw: Writer, v: VertexKey, vw: Weights) returns (r: Outcome<Error>)
    modifies pw
    ensures r.Pass? <==> BlendedRecord(v, vw).Success?
    ensures r.Pass? ==> pw.fields == old(pw.fields) + BlendedRecord(v, vw).value
    ensures r.Fail? ==> r.error == BlendedRecord(v, vw).error
  {
    var two := vw;
    if |vw| > 2 {
      var cut := MaxTwo(vw);
      if cut.Failure? {
        return Fail(cut.error);
      }
      two := cut.value;
    }
    if |two| == 2 || |two| == 1 {
      r := WriteSlots(pw, v, two);
    } else {
      r := Fail(NoInfluences(v.vert));
    }
  }

  /** The bone slots, each as the loop over the (at most two) keys writes them, then the
      attributes, the blend factor and the UV. */
  method WriteSlots(pw: Writer, v: VertexKey, two: Weights) returns (r: Outcome<Error>)
    requires |two| == 1 || |two| == 2
    modifies pw
    ensures r.Pass? <==> SlotsRecord(v, two).Success?
    ensures r.Pass? ==> pw.fields == old(pw.fields) + SlotsRecord(v, two).value
    ensures r.Fail? ==> r.error == SlotsRecord(v, two).error
  {
    ghost var start := pw.fields;
    var bw := 0.0;
    if |two| == 2 {
      var ok := pw.PutU16(two[0].0);
      if ok.Fail? {
        return Fail(Pack(ok.error));
      }
      var w0 := two[0].1;
      ok := pw.PutU16(two[1].0);
      if ok.Fail? {
        return Fail(Pack(ok.error));
      }
      if w0 + two[1].1 == 0.0 {
        return Fail(ZeroWeightSum(v.vert));
      }
      bw := 1.0 - w0 / (w0 + two[1].1);
    } else {
      if !(0 <= two[0].0 < U16_LIMIT) {
        return Fail(Pack(OutOfRange('H', two[0].0)));
      }
      var ok := pw.PutU16(two[0].0);
      ok := pw.PutU16(two[0].0);
    }
    WriteTail(pw, v, bw);
    PairThen(start, U16(two[0].0), U16(two[|two| - 1].0), SlotsTail(v, bw));
    r := Pass;
  }

  /** The writes after the bone slots. */
  method WriteTail(pw: Writer, v: VertexKey, bw: real)
    modifies pw
    ensures pw.fields == old(pw.fields) + SlotsTail(v, bw)
  {
    WriteAttributes(pw, v);
    pw.PutF32(bw);
    pw.PutF32(v.uv.0);
    pw.PutF32(v.uv.1);
  }

  lemma PairThen(s: seq<Field>, a: Field, b: Field, t: seq<Field>)
    ensures s + [a] + [b] + t == s + ([a, b] + t)
  {
  }

  lemma AppendAssoc(a: seq<Field>, b: seq<Field>, c: seq<Field>)
    ensures a + (b + c) == (a + b) + c
  {
  }

  /** The loop `for v in vertices` writing one record each. */
  method WriteRecords(pw: Writer, vertices: seq<VertexKey>, weights: seq<Weights>, vwmx: nat)
    returns (r: Outcome<Error>)
    modifies pw
    ensures r.Pass? <==> Records(RecordOf(weights, vwmx), vertices).Success?
    ensures r.Pass? ==> pw.fields == old(pw.fields) + Records(RecordOf(weights, vwmx), vertices).value
    ensures r.Fail? ==> r.error == Records(RecordOf(weights, vwmx), vertices).error
  {
    ghost var rec := RecordOf(weights, vwmx);
    var i := 0;
    while i < |vertices|
      invariant 0 <= i <= |vertices|
      invariant Records(rec, vertices[..i]).Success?
      invariant pw.fields == old(pw.fields) + Records(rec, vertices[..i]).value
    {
      RecordOfIs(weights, vwmx, vertices[i]);
      ghost var done := pw.fields;
      var ok := WriteVertex(pw, vertices[i], weights, vwmx);
      if ok.Fail? {
        RecordsFirstFailure(rec, vertices, i);
        return Fail(ok.error);
      }
      RecordsStep(rec, vertices, i);
      AppendAssoc(old(pw.fields), Records(rec, vertices[..i]).value, rec(vertices[i]).value);
      i := i + 1;
    }
    assert vertices[..|vertices|] == vertices;
    r := Pass;
  }

  /** The vertex-chunk writer: the optional header, then one record per output vertex. */
  method WriteVertexChunk(vertices: seq<VertexKey>, weights: seq<Weights>, vwmx: nat)
    returns (r: Result<seq<Field>, Error>)
    ensures r == VertexChunk(vertices, weights, vwmx)
  {
    var pw := new Writer();
    ghost var header: seq<Field> := [];
    if vwmx != 1 {
      var ok := pw.PutU32(0x240e3300);
      ok := pw.PutU32(|vertices|);
      if ok.Fail? {
        return Failure(Pack(ok.error));
      }
      header := [U32(0x240e3300), U32(|vertices|)];
    }
    assert pw.fields == header;
    var ok := WriteRecords(pw, vertices, weights, vwmx);
    if ok.Fail? {
      return Failure(ok.error);
    }
    r := Success(pw.fields);
  }

  // ---------------------------------------------------------------------------
  // The index chunk (id 0x4)

  /** `putf('HHH', *f)`: a face must hold exactly three indices, each a u16. */
  function Triple(f: seq<nat>, fi: nat): Result<seq<Field>, Error>
  {
    if |f| != 3 then Failure(NotTriangle(fi))
    else
      var a :- Lift(PackU16(f[0]));
      var b :- Lift(PackU16(f[1]));
      var c :- Lift(PackU16(f[2]));
      Success([a, b, c])
  }

  /** The triples of all faces, in face order; the first face that cannot be written stops
      the export. */
  function Triples(indices: seq<seq<nat>>): Result<seq<Field>, Error>
  {
    if indices == [] then Success([])
    else
      var prev :- Triples(indices[..|indices| - 1]);
      var last :- Triple(indices[|indices| - 1], |indices| - 1);
      Success(prev + last)
  }

  /** The index chunk: `3 * len(indices)` as a u32, then one u16 triple per face. */
  function IndexChunk(indices: seq<seq<nat>>): Result<seq<Field>, Error>
  {
    var count :- Lift(PackU32(3 * |indices|));
    var body :- Triples(indices);
    Success([count] + body)
  }

  /** Every face is a triangle whose indices fit a u16. */
  ghost predicate Writable(indices: seq<seq<nat>>)
  {
    forall f :: 0 <= f < |indices| ==>
      |indices[f]| == 3 && forall j :: 0 <= j < 3 ==> indices[f][j] < U16_LIMIT
  }

  /** The triples can be written exactly when every face is a writable triangle, and then
      index `j` of face `f` sits at `3 * f + j`. */
  lemma {:induction false} TriplesLayout(indices: seq<seq<nat>>)
    ensures Triples(indices).Success? <==> Writable(indices)
    ensures Triples(indices).Success? ==>
      |Triples(indices).value| == 3 * |indices| &&
      forall f, j :: 0 <= f < |indices| && 0 <= j < 3 ==>
        Triples(indices).value[3 * f + j] == U16(indices[f][j])
  {
    if indices != [] {
      var init := indices[..|indices| - 1];
      TriplesLayout(init);
      assert forall f :: 0 <= f < |init| ==> init[f] == indices[f];
    }
  }

  /** The layout of the index chunk and when it can be written. */
  lemma IndexChunkLayout(indices: seq<seq<nat>>)
    ensures IndexChunk(indices).Success? <==> 3 * |indices| < U32_LIMIT && Writable(indices)
    ensures IndexChunk(indices).Success? ==>
      var c := IndexChunk(indices).value;
      |c| == 1 + 3 * |indices| && c[0] == U32(3 * |indices|) &&
      forall f, j :: 0 <= f < |indices| && 0 <= j < 3 ==> c[1 + 3 * f + j] == U16(indices[f][j])
  {
    TriplesLayout(indices);
  }

  lemma {:induction false} TriplesFirstFailure(indices: seq<seq<nat>>, i: nat)
    requires i < |indices|
    requires Triples(indices[..i]).Success?
    requires Triple(indices[i], i).Failure?
    ensures Triples(indices) == Failure(Triple(indices[i], i).error)
  {
    if i < |indices| - 1 {
      var init := indices[..|indices| - 1];
      assert init[..i] == indices[..i] && init[i] == indices[i];
      TriplesFirstFailure(init, i);
    } else {
      assert indices[..|indices| - 1] == indices[..i];
    }
  }

  lemma TriplesStep(indices: seq<seq<nat>>, i: nat)
    requires i < |indices|
    requires Triples(indices[..i]).Success?
    requires Triple(indices[i], i).Success?
    ensures Triples(indices[..i + 1]) == Success(Triples(indices[..i]).value + Triple(indices[i], i).value)
  {
    assert indices[..i + 1][..i] == indices[..i];
  }

  /** Writes the triple of face `fi`. */
  method WriteTriple(pw: Writer, f: seq<nat>, fi: nat) returns (r: Outcome<Error>)
    modifies pw
    ensures r.Pass? <==> Triple(f, fi).Success?
    ensures r.Pass? ==> pw.fields == old(pw.fields) + Triple(f, fi).value
    ensures r.Fail? ==> r.error == Triple(f, fi).error
  {
    if |f| != 3 {
      return Fail(NotTriangle(fi));
    }
    var ok := pw.PutU16(f[0]);
    if ok.Fail? {
      return Fail(Pack(ok.error));
    }
    ok := pw.PutU16(f[1]);
    if ok.Fail? {
      return Fail(Pack(ok.error));
    }
    ok := pw.PutU16(f[2]);
    if ok.Fail? {
      return Fail(Pack(ok.error));
    }
    r := Pass;
  }

  /** The index-chunk writer. */
  method WriteIndexChunk(indices: seq<seq<nat>>) returns (r: Result<seq<Field>, Error>)
    ensures r == IndexChunk(indices)
  {
    var pw := new Writer();
    var ok := pw.PutU32(3 * |indices|);
    if ok.Fail? {
      return Failure(Pack(ok.error));
    }
    ghost var count := pw.fields;
    var i := 0;
    while i < |indices|
      invariant 0 <= i <= |indices|
      invariant Triples(indices[..i]).Success?
      invariant pw.fields == count + Triples(indices[..i]).value
    {
      var t := WriteTriple(pw, indices[i], i);
      if t.Fail? {
        TriplesFirstFailure(indices, i);
        return Failure(t.error);
      }
      TriplesStep(indices, i);
      AppendAssoc(count, Triples(indices[..i]).value, Triple(indices[i], i).value);
      i := i + 1;
    }
    assert indices[..|indices|] == indices;
    assert count == [U32(3 * |indices|)];
    r := Success(pw.fields);
  }

  // ---------------------------------------------------------------------------
  // One child mesh: the vertex and index chunks of `_export_child`

  /** The first position of `k` in `s`, or `|s|` when it is absent. */
  function IndexOf(s: seq<VertexKey>, k: VertexKey): (r: nat)
    ensures r <= |s|
    ensures r < |s| ==> s[r] == k
    ensures forall j :: 0 <= j < r ==> s[j] != k
  {
    if s == [] then 0
    else if s[0] == k then 0
    else 1 + IndexOf(s[1..], k)
  }

  /** In a sequence without duplicates, a key sits at one position only. */
  lemma IndexOfDistinct(s: seq<VertexKey>, i: nat)
    requires Distinct(s) && i < |s|
    ensures IndexOf(s, s[i]) == i
  {
  }

  /** The indices of every face corner: the position of the corner's key in `vertices`. */
  function FaceIndices(faces: seq<seq<Corner>>, vertices: seq<VertexKey>): (r: seq<seq<nat>>)
    ensures |r| == |faces|
    ensures forall f :: 0 <= f < |faces| ==> |r[f]| == |faces[f]|
  {
    seq(|faces|, f requires 0 <= f < |faces| =>
      seq(|faces[f]|, l requires 0 <= l < |faces[f]| => IndexOf(vertices, KeyOf(faces[f][l]))))
  }

  /** What `_export_child` writes as chunks 0x3 and 0x4 for triangulated `faces` whose source
      vertex `i` has influences `weights[i]`. */
  function ChildChunks(faces: seq<seq<Corner>>, weights: seq<Weights>): Result<(seq<Field>, seq<Field>), Error>
  {
    var vertices := FirstUse(CornerKeys(faces));
    var vc :- VertexChunk(vertices, weights, MaxCount(weights));
    var ic :- IndexChunk(FaceIndices(faces, vertices));
    Success((vc, ic))
  }

  /** Every index the index chunk holds names the output vertex whose key is that corner's. */
  lemma ChildIndicesResolve(faces: seq<seq<Corner>>, weights: seq<Weights>, f: nat, j: nat)
    requires ChildChunks(faces, weights).Success?
    requires f < |faces| && j < 3
    ensures var vertices := FirstUse(CornerKeys(faces));
      var ic := ChildChunks(faces, weights).value.1;
      |faces[f]| == 3 && 1 + 3 * f + j < |ic| && ic[1 + 3 * f + j].U16? &&
      0 <= ic[1 + 3 * f + j].h < |vertices| && vertices[ic[1 + 3 * f + j].h] == KeyOf(faces[f][j])
  {
    var vertices := FirstUse(CornerKeys(faces));
    var indices := FaceIndices(faces, vertices);
    assert IndexChunk(indices).Success?;
    var ic := IndexChunk(indices).value;
    assert ChildChunks(faces, weights).value.1 == ic;
    IndexChunkLayout(indices);
    assert |faces[f]| == 3 && ic[1 + 3 * f + j] == U16(indices[f][j]);
    CornerKeysHas(faces, f, j);
    FirstUseKeys(CornerKeys(faces));
    assert indices[f][j] == IndexOf(vertices, KeyOf(faces[f][j]));
  }

  /** Each corner's key is among the corner keys. */
  lemma {:induction false} CornerKeysHas(faces: seq<seq<Corner>>, f: nat, l: nat)
    requires f < |faces| && l < |faces[f]|
    ensures KeyOf(faces[f][l]) in CornerKeys(faces)
  {
    if f < |faces| - 1 {
      CornerKeysHas(faces[..|faces| - 1], f, l);
    } else {
      assert FaceKeys(faces[f])[l] == KeyOf(faces[f][l]);
    }
  }

  /** The indices the dedup loop builds are the positions of the corner keys. */
  lemma IndicesArePositions(faces: seq<seq<Corner>>, vertices: seq<VertexKey>, indices: seq<seq<nat>>)
    requires Distinct(vertices)
    requires |indices| == |faces|
    requires forall f :: 0 <= f < |faces| ==> |indices[f]| == |faces[f]|
    requires forall f, l :: 0 <= f < |faces| && 0 <= l < |faces[f]| ==>
      indices[f][l] < |vertices| && vertices[indices[f][l]] == KeyOf(faces[f][l])
    ensures indices == FaceIndices(faces, vertices)
  {
    var fi := FaceIndices(faces, vertices);
    forall f | 0 <= f < |faces|
      ensures indices[f] == fi[f]
    {
      forall l | 0 <= l < |faces[f]|
        ensures indices[f][l] == fi[f][l]
      {
        IndexOfDistinct(vertices, indices[f][l]);
      }
    }
  }

  /** `_export_child` from the dedup loop to the index chunk. */
  method ExportChild(faces: seq<seq<Corner>>, weights: seq<Weights>)
    returns (r: Result<(seq<Field>, seq<Field>), Error>)
    ensures r == ChildChunks(faces, weights)
  {
    var vertices, indices := BuildVertices(faces);
    var vwmx := MaxInfluences(weights);
    var vc := WriteVertexChunk(vertices, weights, vwmx);
    if vc.Failure? {
      return Failure(vc.error);
    }
    IndicesArePositions(faces, vertices, indices);
    var ic := WriteIndexChunk(indices);
    if ic.Failure? {
      return Failure(ic.error);
    }
    r := Success((vc.value, ic.value));
  }

  // ---------------------------------------------------------------------------
  // calculate_bbox

  /** An object with the two bounding-box corners `bound_box[0]` and `bound_box[6]`, and its
      children. */
  datatype Obj = Obj(lo: Vec3, hi: Vec3, children: seq<Obj>)

  function Axis(v: Vec3, i: nat): real
    requires i < 3
  {
    if i == 0 then v.0 else if i == 1 then v.1 else v.2
  }

  /** Python's `min(a, b)` and `max(a, b)`: the first argument unless the second is strictly
      smaller (larger). */
  function Min(a: real, b: real): real
  {
    if b < a then b else a
  }

  function Max(a: real, b: real): real
  {
    if b > a then b else a
  }

  /** The objects `expand_children_r(cc)` visits, in visiting order: each child, then its
      own descendants. */
  function Flatten(cc: seq<Obj>): seq<Obj>
  {
    if cc == [] then []
    else Flatten(cc[..|cc| - 1]) + [cc[|cc| - 1]] + Flatten(cc[|cc| - 1].children)
  }

  /** Every child, and every descendant of a child, is visited. */
  lemma {:induction false} FlattenHasDescendants(cc: seq<Obj>, k: nat)
    requires k < |cc|
    ensures cc[k] in Flatten(cc)
    ensures forall d :: d in Flatten(cc[k].children) ==> d in Flatten(cc)
  {
    if k < |cc| - 1 {
      FlattenHasDescendants(cc[..|cc| - 1], k);
    }
  }

  /** `m` lowered by the lower corner of each object of `os`, on axis `i`. */
  function MinOf(m: real, os: seq<Obj>, i: nat): real
    requires i < 3
  {
    if os == [] then m else Min(MinOf(m, os[..|os| - 1], i), Axis(os[|os| - 1].lo, i))
  }

  /** `m` raised by the upper corner of each object of `os`, on axis `i`. */
  function MaxOf(m: real, os: seq<Obj>, i: nat): real
    requires i < 3
  {
    if os == [] then m else Max(MaxOf(m, os[..|os| - 1], i), Axis(os[|os| - 1].hi, i))
  }

  lemma {:induction false} FoldAppend(m: real, a: seq<Obj>, b: seq<Obj>, i: nat)
    requires i < 3
    ensures MinOf(m, a + b, i) == MinOf(MinOf(m, a, i), b, i)
    ensures MaxOf(m, a + b, i) == MaxOf(MaxOf(m, a, i), b, i)
  {
    if b == [] {
      assert a + b == a;
    } else {
      assert (a + b)[..|a + b| - 1] == a + b[..|b| - 1];
      FoldAppend(m, a, b[..|b| - 1], i);
    }
  }

  /** The lowered value is at most `m` and every lower corner, and it is one of them. */
  lemma {:induction false} MinOfBounds(m: real, os: seq<Obj>, i: nat)
    requires i < 3
    ensures MinOf(m, os, i) <= m
    ensures forall d :: d in os ==> MinOf(m, os, i) <= Axis(d.lo, i)
    ensures MinOf(m, os, i) == m || exists d :: d in os && MinOf(m, os, i) == Axis(d.lo, i)
  {
    if os != [] {
      MinOfBounds(m, os[..|os| - 1], i);
      assert forall d :: d in os ==> d in os[..|os| - 1] || d == os[|os| - 1];
    }
  }

  /** The raised value is at least `m` and every upper corner, and it is one of them. */
  lemma {:induction false} MaxOfBounds(m: real, os: seq<Obj>, i: nat)
    requires i < 3
    ensures MaxOf(m, os, i) >= m
    ensures forall d :: d in os ==> MaxOf(m, os, i) >= Axis(d.hi, i)
    ensures MaxOf(m, os, i) == m || exists d :: d in os && MaxOf(m, os, i) == Axis(d.hi, i)
  {
    if os != [] {
      MaxOfBounds(m, os[..|os| - 1], i);
      assert forall d :: d in os ==> d in os[..|os| - 1] || d == os[|os| - 1];
    }
  }

  /** Widens one child's box into `mn`/`mx`, axis by axis. */
  method ExpandOne(c: Obj, mn: array<real>, mx: array<real>)
    requires mn.Length == 3 && mx.Length == 3 && mn != mx
    modifies mn, mx
    ensures forall i :: 0 <= i < 3 ==>
      mn[i] == Min(old(mn[i]), Axis(c.lo, i)) && mx[i] == Max(old(mx[i]), Axis(c.hi, i))
  {
    for i := 0 to 3
      invariant forall a :: 0 <= a < i ==>
        mn[a] == Min(old(mn[a]), Axis(c.lo, a)) && mx[a] == Max(old(mx[a]), Axis(c.hi, a))
      invariant forall a :: i <= a < 3 ==> mn[a] == old(mn[a]) && mx[a] == old(mx[a])
    {
      mn[i] := Min(mn[i], Axis(c.lo, i));
      mx[i] := Max(mx[i], Axis(c.hi, i));
    }
  }

  /** `expand_children_r(cc)`: widens `mn`/`mx` by every child and descendant. */
  method ExpandChildren(cc: seq<Obj>, mn: array<real>, mx: array<real>)
    requires mn.Length == 3 && mx.Length == 3 && mn != mx
    modifies mn, mx
    ensures forall i :: 0 <= i < 3 ==>
      mn[i] == MinOf(old(mn[i]), Flatten(cc), i) && mx[i] == MaxOf(old(mx[i]), Flatten(cc), i)
    decreases cc
  {
    ghost var m0 := mn[..];
    ghost var x0 := mx[..];
    for k := 0 to |cc|
      invariant forall i :: 0 <= i < 3 ==>
        mn[i] == MinOf(m0[i], Flatten(cc[..k]), i) && mx[i] == MaxOf(x0[i], Flatten(cc[..k]), i)
    {
      var c := cc[k];
      ghost var m1 := mn[..];
      ghost var x1 := mx[..];
      ExpandOne(c, mn, mx);
      ExpandChildren(c.children, mn, mx);
      assert cc[..k + 1][..k] == cc[..k];
      forall i | 0 <= i < 3
        ensures mn[i] == MinOf(m0[i], Flatten(cc[..k + 1]), i)
        ensures mx[i] == MaxOf(x0[i], Flatten(cc[..k + 1]), i)
      {
        FoldAppend(m0[i], Flatten(cc[..k]) + [c], Flatten(c.children), i);
        FoldAppend(x0[i], Flatten(cc[..k]) + [c], Flatten(c.children), i);
      }
    }
    assert cc[..|cc|] == cc;
  }

  /** `calculate_bbox`: starts from the object's own corners and widens by every descendant. */
  method CalculateBbox(o: Obj) returns (mn: seq<real>, mx: seq<real>)
    ensures |mn| == 3 && |mx| == 3
    ensures forall i :: 0 <= i < 3 ==>
      mn[i] == MinOf(Axis(o.lo, i), Flatten(o.children), i) &&
      mx[i] == MaxOf(Axis(o.hi, i), Flatten(o.children), i)
  {
    var lo := new real[3];
    var hi := new real[3];
    lo[0], lo[1], lo[2] := o.lo.0, o.lo.1, o.lo.2;
    hi[0], hi[1], hi[2] := o.hi.0, o.hi.1, o.hi.2;
    ExpandChildren(o.children, lo, hi);
    mn := lo[..];
    mx := hi[..];
  }

  /** The box `calculate_bbox` computes encloses the object and all its descendants on every
      axis, and each bound is a corner of one of them. */
  lemma BboxEncloses(o: Obj, i: nat)
    requires i < 3
    ensures var lo := MinOf(Axis(o.lo, i), Flatten(o.children), i);
      lo <= Axis(o.lo, i) && forall d :: d in Flatten(o.children) ==> lo <= Axis(d.lo, i)
    ensures var hi := MaxOf(Axis(o.hi, i), Flatten(o.children), i);
      hi >= Axis(o.hi, i) && forall d :: d in Flatten(o.children) ==> hi >= Axis(d.hi, i)
    ensures var lo := MinOf(Axis(o.lo, i), Flatten(o.children), i);
      lo == Axis(o.lo, i) || exists d :: d in Flatten(o.children) && lo == Axis(d.lo, i)
    ensures var hi := MaxOf(Axis(o.hi, i), Flatten(o.children), i);
      hi == Axis(o.hi, i) || exists d :: d in Flatten(o.children) && hi == Axis(d.hi, i)
  {
    MinOfBounds(Axis(o.lo, i), Flatten(o.children), i);
    MaxOfBounds(Axis(o.hi, i), Flatten(o.children), i);
  }
}
