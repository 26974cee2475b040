/**
 * The jump-line meshes of the galaxy view: the buffer append of AddLine with
 * its Resize copy loops, the texture coordinates of UpdateMeshUvs, and the
 * per-region accounting of GenerateJumps. A Unity mesh hands out copies of its
 * vertex and index arrays and takes copies back, so the mesh keeps them as
 * sequences and the methods work on arrays in between. The vertex type is
 * generic; the quad geometry is a parameter.
 */
module JumpMesh {
  import opened Common

  /** The four corners of a line quad. */
  datatype Quad<V> = Quad(p0: V, p1: V, p2: V, p3: V)

  function Points<V>(q: Quad<V>): (ps: seq<V>)
    ensures |ps| == 4
  {
    [q.p0, q.p1, q.p2, q.p3]
  }

  /** The six indices (two triangles) that AddLine writes for the quad whose first vertex is `b`. */
  function Pattern(b: int): (ts: seq<int>)
    ensures |ts| == 6
  {
    [b, b + 1, b + 2, b + 1, b + 3, b + 2]
  }

  /** The index buffer of `k` quads appended one after another. */
  function Strip(k: nat): (ts: seq<int>)
    ensures |ts| == 6 * k
  {
    if k == 0 then [] else Strip(k - 1) + Pattern(4 * (k - 1))
  }

  /** Every index of a strip of `k` quads names one of its 4k vertices. */
  lemma {:induction false} StripIndices(k: nat)
    ensures forall i :: 0 <= i < |Strip(k)| ==> 0 <= Strip(k)[i] < 4 * k
  {
    if k > 0 {
      StripIndices(k - 1);
      var s := Strip(k);
      forall i | 0 <= i < |s| ensures 0 <= s[i] < 4 * k {
        if i < 6 * (k - 1) {
          assert s[i] == Strip(k - 1)[i];
        } else {
          assert s[i] == Pattern(4 * (k - 1))[i - 6 * (k - 1)];
        }
      }
    }
  }

  /** The first vertex AddLine writes: past the end, or over the last quad when `tmp` is set. */
  function LineBase(n: nat, tmp: bool): (b: nat)
    ensures b <= n
  {
    if !tmp || n < 4 then n else n - 4
  }

  /** The vertex buffer after AddLine. */
  function LineVertices<V>(vs: seq<V>, quad: Quad<V>, tmp: bool): seq<V> {
    vs[..LineBase(|vs|, tmp)] + Points(quad)
  }

  /** The index buffer after AddLine, whose new quad starts at vertex `b`. */
  function LineTriangles(ts: seq<int>, b: int, tmp: bool): seq<int> {
    (if !tmp || |ts| < 6 then ts else ts[..|ts| - 6]) + Pattern(b)
  }

  /**
   * Appending a line to a buffer of k quads gives a buffer of k + 1 quads:
   * 4 more vertices, 6 more indices, and the old contents kept as prefixes.
   */
  lemma AppendLine<V>(vs: seq<V>, ts: seq<int>, quad: Quad<V>)
    requires |vs| % 4 == 0 && ts == Strip(|vs| / 4)
    ensures var vs' := LineVertices(vs, quad, false);
            |vs'| == |vs| + 4 && vs'[..|vs|] == vs && vs'[|vs|..] == Points(quad)
    ensures var ts' := LineTriangles(ts, |vs|, false);
            |ts'| == |ts| + 6 && ts'[..|ts|] == ts && ts' == Strip(|vs| / 4 + 1)
  {
    var vs' := LineVertices(vs, quad, false);
    assert vs[..|vs|] == vs;
    assert vs'[..|vs|] == vs;
  }

  /**
   * With `tmp` set, a non-empty buffer keeps its size: the last quad's corners are
   * overwritten and the index buffer is the same as before.
   */
  lemma ReplaceLine<V>(vs: seq<V>, ts: seq<int>, quad: Quad<V>)
    requires |vs| % 4 == 0 && ts == Strip(|vs| / 4) && |vs| > 0
    ensures var vs' := LineVertices(vs, quad, true);
            |vs'| == |vs| && vs'[..|vs| - 4] == vs[..|vs| - 4] && vs'[|vs| - 4..] == Points(quad)
    ensures LineTriangles(ts, |vs| - 4, true) == ts
  {
    var k := |vs| / 4;
    assert ts[..|ts| - 6] == Strip(k - 1);
  }

  /**
   * A line mesh: vertex buffer, index buffer (three indices per triangle) and
   * texture coordinates.
   */
  class Mesh<V(0), U(0)> {
    var vertices: seq<V>
    var triangles: seq<int>
    var uv: seq<U>

    /** A mesh built by AddLine alone: whole quads, each with its two triangles. */
    ghost predicate Valid()
      reads this
    {
      |vertices| % 4 == 0 && triangles == Strip(|vertices| / 4)
    }

    /** A new Mesh is empty. */
    constructor()
      ensures vertices == [] && triangles == [] && uv == []
      ensures Valid()
    {
      vertices := [];
      triangles := [];
      uv := [];
    }

    /**
     * AddLine: appends the quad, or with `tmp` set overwrites the last quad,
     * writing its two triangles; every index stays below the vertex count.
     */
    method AddLine(quad: Quad<V>, tmp: bool)
      requires Valid()
      modifies this
      ensures vertices == LineVertices(old(vertices), quad, tmp)
      ensures triangles == LineTriangles(old(triangles), LineBase(|old(vertices)|, tmp), tmp)
      ensures uv == old(uv)
      ensures Valid()
      ensures forall i :: 0 <= i < |triangles| ==> 0 <= triangles[i] < |vertices|
    {
      var current := vertices;
      var currentTs := triangles;
      var vs, vl := PlaceQuad(current, quad, tmp);
      var ts := PlaceTriangles(currentTs, vl, tmp);
      vertices := vs[..];
      triangles := ts[..];
      if !tmp || |current| == 0 {
        AppendLine(current, currentTs, quad);
      } else {
        ReplaceLine(current, currentTs, quad);
      }
      StripIndices(|vertices| / 4);
    }

    /** UpdateMeshUvs: one texture coordinate per vertex, projected from it. */
    method UpdateMeshUvs(project: V -> U)
      modifies this
      ensures vertices == old(vertices) && triangles == old(triangles)
      ensures |uv| == |vertices|
      ensures forall i :: 0 <= i < |uv| ==> uv[i] == project(vertices[i])
    {
      var vs := vertices;
      var uvs := new U[|vs|];
      var i := 0;
      while i < uvs.Length
        modifies uvs
        invariant 0 <= i <= uvs.Length
        invariant forall j :: 0 <= j < i ==> uvs[j] == project(vs[j])
      {
        uvs[i] := project(vs[i]);
        i := i + 1;
      }
      uv := uvs[..];
    }
  }

  /** The vertex half of AddLine: the copied vertex array, grown or not, with the quad written at `vl`. */
  method PlaceQuad<V(0)>(current: seq<V>, quad: Quad<V>, tmp: bool) returns (vs: array<V>, vl: nat)
    requires |current| % 4 == 0
    ensures fresh(vs)
    ensures vl == LineBase(|current|, tmp)
    ensures vs[..] == LineVertices(current, quad, tmp)
  {
    vl := |current|;
    vs := new V[vl](i requires 0 <= i < vl => current[i]);
    if !tmp || vl == 0 {
      vs := Resize(vs, 4);
    } else {
      vl := vl - 4;
    }
    assert vs[..vl] == current[..vl];
    WriteQuad(vs, vl, quad);
  }

  /** Writes the four corners of the quad into the last four slots from `vl` on. */
  method WriteQuad<V>(vs: array<V>, vl: nat, quad: Quad<V>)
    requires vl + 4 == vs.Length
    modifies vs
    ensures vs[..] == old(vs[..vl]) + Points(quad)
  {
    vs[vl + 0] := quad.p0;
    vs[vl + 1] := quad.p1;
    vs[vl + 2] := quad.p2;
    vs[vl + 3] := quad.p3;
  }

  /** The index half of AddLine: the copied index array, grown or not, with the quad's two triangles written at its end. */
  method PlaceTriangles(currentTs: seq<int>, vl: int, tmp: bool) returns (ts: array<int>)
    requires |currentTs| % 6 == 0
    ensures fresh(ts)
    ensures ts[..] == LineTriangles(currentTs, vl, tmp)
  {
    var tl := |currentTs|;
    ts := new int[tl](i requires 0 <= i < tl => currentTs[i]);
    if !tmp || tl == 0 {
      ts := Resize(ts, 6);
    } else {
      tl := tl - 6;
    }
    assert ts[..tl] == currentTs[..tl];
    WritePattern(ts, tl, vl);
  }

  /** Writes the two triangles of the quad whose first vertex is `vl` into the last six slots from `tl` on. */
  method WritePattern(ts: array<int>, tl: nat, vl: int)
    requires tl + 6 == ts.Length
    modifies ts
    ensures ts[..] == old(ts[..tl]) + Pattern(vl)
  {
    ts[tl] := vl;
    ts[tl + 1] := vl + 1;
    ts[tl + 2] := vl + 2;
    ts[tl + 3] := vl + 1;
    ts[tl + 4] := vl + 3;
    ts[tl + 5] := vl + 2;
  }

  /** ResizeVertices and ResizeTraingles: a new array `ns` elements longer holding the old ones in front. */
  method Resize<T(0)>(ovs: array<T>, ns: nat) returns (nvs: array<T>)
    ensures fresh(nvs)
    ensures nvs.Length == ovs.Length + ns
    ensures nvs[..ovs.Length] == ovs[..]
  {
    nvs := new T[ovs.Length + ns];
    for i := 0 to ovs.Length
      invariant forall j :: 0 <= j < i ==> nvs[j] == ovs[j]
    {
      nvs[i] := ovs[i];
    }
  }

  // ---------------------------------------------------------------------------
  // GenerateJumps

  /** What the jump loop needs of a loaded system: its region and its position. */
  datatype Star<V> = Star(regionId: int, position: V)

  /** The system IDs of one row of the jump table. */
  datatype JumpRow = JumpRow(fromId: int, toId: int)

  /**
   * The region whose mesh a jump row is drawn into: the region of its from-system,
   * when both systems are loaded and that region is too.
   */
  function JumpRegion<V>(systems: map<int, Star<V>>, regionIds: seq<int>, row: JumpRow): (r: Option<int>)
    ensures r.Some? <==> row.fromId in systems && row.toId in systems && systems[row.fromId].regionId in regionIds
    ensures r.Some? ==> r.value == systems[row.fromId].regionId
  {
    if row.fromId in systems && row.toId in systems && systems[row.fromId].regionId in regionIds
    then Some(systems[row.fromId].regionId)
    else None
  }

  /** The vertices of region `r`'s mesh after the rows: two quads per row drawn into it. */
  function JumpVertices<V>(systems: map<int, Star<V>>, regionIds: seq<int>, rows: seq<JumpRow>, r: int,
                           makeQuad: (V, V) -> Quad<V>, makeQuad2: (V, V) -> Quad<V>): seq<V>
  {
    if rows == [] then []
    else
      var row := rows[|rows| - 1];
      JumpVertices(systems, regionIds, rows[..|rows| - 1], r, makeQuad, makeQuad2) +
        if JumpRegion(systems, regionIds, row) == Some(r) then RowQuads(systems, row, makeQuad, makeQuad2) else []
  }

  /** The number of rows drawn into region `r`. */
  function JumpsInto<V>(systems: map<int, Star<V>>, regionIds: seq<int>, rows: seq<JumpRow>, r: int): nat {
    if rows == [] then 0
    else JumpsInto(systems, regionIds, rows[..|rows| - 1], r) +
         if JumpRegion(systems, regionIds, rows[|rows| - 1]) == Some(r) then 1 else 0
  }

  /** Each row drawn into a region adds 8 vertices and 12 indices to its mesh; other rows add nothing. */
  lemma {:induction false} JumpAccounting<V>(systems: map<int, Star<V>>, regionIds: seq<int>, rows: seq<JumpRow>, r: int,
                                             makeQuad: (V, V) -> Quad<V>, makeQuad2: (V, V) -> Quad<V>)
    ensures |JumpVertices(systems, regionIds, rows, r, makeQuad, makeQuad2)| == 8 * JumpsInto(systems, regionIds, rows, r)
    ensures |Strip(|JumpVertices(systems, regionIds, rows, r, makeQuad, makeQuad2)| / 4)| == 12 * JumpsInto(systems, regionIds, rows, r)
  {
    var n := JumpsInto(systems, regionIds, rows, r);
    if rows != [] {
      var row := rows[|rows| - 1];
      JumpAccounting(systems, regionIds, rows[..|rows| - 1], r, makeQuad, makeQuad2);
      if JumpRegion(systems, regionIds, row) == Some(r) {
        assert |RowQuads(systems, row, makeQuad, makeQuad2)| == 8;
      }
    }
    assert |JumpVertices(systems, regionIds, rows, r, makeQuad, makeQuad2)| / 4 == 2 * n;
  }

  /** A region that is not loaded gets no jump lines. */
  lemma {:induction false} JumpsOnlyIntoLoaded<V>(systems: map<int, Star<V>>, regionIds: seq<int>, rows: seq<JumpRow>, r: int)
    requires r !in regionIds
    ensures JumpsInto(systems, regionIds, rows, r) == 0
  {
    if rows != [] {
      JumpsOnlyIntoLoaded(systems, regionIds, rows[..|rows| - 1], r);
    }
  }

  /** The two quads a drawn row adds to its region's mesh. */
  function RowQuads<V>(systems: map<int, Star<V>>, row: JumpRow,
                       makeQuad: (V, V) -> Quad<V>, makeQuad2: (V, V) -> Quad<V>): seq<V>
    requires row.fromId in systems && row.toId in systems
  {
    var from := systems[row.fromId].position;
    var to := systems[row.toId].position;
    Points(makeQuad(from, to)) + Points(makeQuad2(from, to))
  }

  /** Distinct regions have distinct meshes. */
  ghost predicate Separate<V(0), U(0)>(meshes: map<int, Mesh<V, U>>) {
    forall r1, r2 :: r1 in meshes && r2 in meshes && r1 != r2 ==> meshes[r1] != meshes[r2]
  }

  /** The mesh-creation loop of GenerateJumps: one new, empty mesh per region. */
  method CreateMeshes<V(0), U(0)>(regionIds: seq<int>) returns (meshes: map<int, Mesh<V, U>>)
    ensures forall r :: r in meshes <==> r in regionIds
    ensures Separate(meshes)
    ensures forall r :: r in meshes ==> fresh(meshes[r]) && meshes[r].vertices == [] && meshes[r].Valid()
    ensures forall m :: m in meshes.Values ==> fresh(m)
  {
    meshes := map[];
    for k := 0 to |regionIds|
      invariant forall r :: r in meshes <==> r in regionIds[..k]
      invariant forall r :: r in meshes ==> fresh(meshes[r]) && meshes[r].vertices == [] && meshes[r].Valid()
      invariant Separate(meshes)
      invariant forall m :: m in meshes.Values ==> fresh(m)
    {
      var m := new Mesh<V, U>();
      meshes := meshes[regionIds[k] := m];
    }
    assert regionIds[..|regionIds|] == regionIds;
  }

  /** One step of the jump loop: a row draws its two quads into the mesh of its region, or nothing. */
  method DrawRow<V(0), U(0)>(meshes: map<int, Mesh<V, U>>, regionIds: seq<int>, systems: map<int, Star<V>>, row: JumpRow,
                             makeQuad: (V, V) -> Quad<V>, makeQuad2: (V, V) -> Quad<V>)
    requires forall r :: r in meshes <==> r in regionIds
    requires Separate(meshes)
    requires forall r :: r in meshes ==> meshes[r].Valid()
    modifies meshes.Values
    ensures forall r :: r in meshes ==> meshes[r].Valid()
    ensures forall r :: r in meshes ==>
              meshes[r].vertices == old(meshes[r].vertices) +
                if JumpRegion(systems, regionIds, row) == Some(r) then RowQuads(systems, row, makeQuad, makeQuad2) else []
  {
    if row.fromId in systems && row.toId in systems {
      var from := systems[row.fromId].position;
      var to := systems[row.toId].position;
      var regionId := systems[row.fromId].regionId;
      if regionId in meshes {
        var m := meshes[regionId];
        ghost var v0 := m.vertices;
        m.AddLine(makeQuad(from, to), false);
        assert m.vertices == v0 + Points(makeQuad(from, to));
        m.AddLine(makeQuad2(from, to), false);
        assert m.vertices == v0 + RowQuads(systems, row, makeQuad, makeQuad2);
      }
    }
  }

  /** The row loop of GenerateJumps. */
  method DrawJumps<V(0), U(0)>(meshes: map<int, Mesh<V, U>>, regionIds: seq<int>, systems: map<int, Star<V>>, rows: seq<JumpRow>,
                               makeQuad: (V, V) -> Quad<V>, makeQuad2: (V, V) -> Quad<V>)
    requires forall r :: r in meshes <==> r in regionIds
    requires Separate(meshes)
    requires forall r :: r in meshes ==> meshes[r].Valid() && meshes[r].vertices == []
    modifies meshes.Values
    ensures forall r :: r in meshes ==> meshes[r].Valid()
    ensures forall r :: r in meshes ==> meshes[r].vertices == JumpVertices(systems, regionIds, rows, r, makeQuad, makeQuad2)
  {
    for i := 0 to |rows|
      invariant forall r :: r in meshes ==> meshes[r].Valid()
      invariant forall r :: r in meshes ==>
                  meshes[r].vertices == JumpVertices(systems, regionIds, rows[..i], r, makeQuad, makeQuad2)
    {
      assert rows[..i + 1][..i] == rows[..i];
      DrawRow(meshes, regionIds, systems, rows[i], makeQuad, makeQuad2);
    }
    assert rows[..|rows|] == rows;
  }

  /** The texture-coordinate loop of GenerateJumps. */
  method ProjectAll<V(0), U(0)>(meshes: map<int, Mesh<V, U>>, regionIds: seq<int>, project: V -> U)
    requires forall r :: r in meshes ==> r in regionIds
    requires forall k :: 0 <= k < |regionIds| ==> regionIds[k] in meshes
    modifies meshes.Values
    ensures forall r :: r in meshes ==>
              meshes[r].vertices == old(meshes[r].vertices) && meshes[r].triangles == old(meshes[r].triangles)
    ensures forall r :: r in meshes ==>
              |meshes[r].uv| == |meshes[r].vertices| &&
              forall i :: 0 <= i < |meshes[r].uv| ==> meshes[r].uv[i] == project(meshes[r].vertices[i])
  {
    for k := 0 to |regionIds|
      invariant forall r :: r in meshes ==>
                  meshes[r].vertices == old(meshes[r].vertices) && meshes[r].triangles == old(meshes[r].triangles)
      invariant forall r :: r in meshes && r in regionIds[..k] ==>
                  |meshes[r].uv| == |meshes[r].vertices| &&
                  forall i :: 0 <= i < |meshes[r].uv| ==> meshes[r].uv[i] == project(meshes[r].vertices[i])
    {
      assert regionIds[..k + 1] == regionIds[..k] + [regionIds[k]];
      meshes[regionIds[k]].UpdateMeshUvs(project);
    }
    assert regionIds[..|regionIds|] == regionIds;
  }

  /**
   * GenerateJumps: one new mesh per loaded region; each jump row draws two
   * quads into the mesh of its from-system's region; then every mesh gets its
   * texture coordinates.
   */
  method GenerateJumps<V(0), U(0)>(regionIds: seq<int>, systems: map<int, Star<V>>, rows: seq<JumpRow>,
                                   makeQuad: (V, V) -> Quad<V>, makeQuad2: (V, V) -> Quad<V>, project: V -> U)
    returns (meshes: map<int, Mesh<V, U>>)
    ensures forall r :: r in meshes <==> r in regionIds
    ensures forall r :: r in meshes ==> fresh(meshes[r]) && meshes[r].Valid()
    ensures forall r :: r in meshes ==> meshes[r].vertices == JumpVertices(systems, regionIds, rows, r, makeQuad, makeQuad2)
    ensures forall r :: r in meshes ==>
              |meshes[r].uv| == |meshes[r].vertices| &&
              forall i :: 0 <= i < |meshes[r].uv| ==> meshes[r].uv[i] == project(meshes[r].vertices[i])
  {
    meshes := CreateMeshes(regionIds);
    DrawJumps(meshes, regionIds, systems, rows, makeQuad, makeQuad2);
    forall k | 0 <= k < |regionIds| ensures regionIds[k] in meshes {
      assert regionIds[k] in regionIds;
    }
    ProjectAll(meshes, regionIds, project);
  }
}
