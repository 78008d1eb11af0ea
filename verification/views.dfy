/** The two GPU views the renderer builds from a loaded mesh (`Mesh`): the
    face view, which turns every hexahedron and wedge face into triangles
    over a de-duplicated vertex list, and the edge view, which draws every
    hexahedron and wedge edge as a line over the full point array. Cells of
    any other type are skipped by both. */
module MeshViews {
  import opened Common
  import opened CellTypes
  import opened MixedTopology
  import MixedLoader

  /** `HEX8`: tag 9 with eight ids. */
  predicate IsHex(c: Cell) {
    c.cellType == HEXAHEDRON && |c.conn| == 8
  }

  /** `WEDGE6`: tag 8 with six ids. */
  predicate IsWedge(c: Cell) {
    c.cellType == WEDGE && |c.conn| == 6
  }

  /** The order in which a quad (a, b, c, d) is emitted as two triangles:
      a, b, c, a, c, d. */
  const QuadFan: seq<nat> := [0, 1, 2, 0, 2, 3]

  lemma TemplatesValid()
    ensures |HexFaces| == 6 && |WedgeFaces| == 5 && |QuadFan| == 6
    ensures forall f, t :: 0 <= f < 6 && 0 <= t < 4 ==> |HexFaces[f]| == 4 && HexFaces[f][t] < 8
    ensures forall f, t :: 0 <= f < 5 && 0 <= t < 3 ==> |WedgeFaces[f]| == 3 && WedgeFaces[f][t] < 6
    ensures forall t :: 0 <= t < 6 ==> QuadFan[t] < 4
    ensures |HexEdges| == 12 && |WedgeEdges| == 9
    ensures forall k :: 0 <= k < 12 ==> HexEdges[k].0 < 8 && HexEdges[k].1 < 8
    ensures forall k :: 0 <= k < 9 ==> WedgeEdges[k].0 < 6 && WedgeEdges[k].1 < 6
  {
  }

  /** The local node position of the k-th triangle corner of a hexahedron:
      face k / 6, fan position k % 6. */
  function HexCorner(k: nat): (i: nat)
    requires k < 36
    ensures i < 8
  {
    TemplatesValid();
    HexFaces[k / 6][QuadFan[k % 6]]
  }

  /** The local node position of the k-th triangle corner of a wedge. */
  function WedgeCorner(k: nat): (i: nat)
    requires k < 15
    ensures i < 6
  {
    TemplatesValid();
    WedgeFaces[k / 3][k % 3]
  }

  /** The node ids a cell contributes to the face view, one per triangle
      corner, in emission order. */
  function CellCorners(c: Cell): (ids: seq<uint64>)
    ensures |ids| == if IsHex(c) then 36 else if IsWedge(c) then 15 else 0
    ensures forall v :: v in ids ==> v in c.conn
  {
    if IsHex(c) then seq(36, k requires 0 <= k < 36 => c.conn[HexCorner(k)])
    else if IsWedge(c) then seq(15, k requires 0 <= k < 15 => c.conn[WedgeCorner(k)])
    else []
  }

  /** The corners of all cells, cell after cell. */
  function Corners(cells: seq<Cell>): seq<uint64> {
    if |cells| == 0 then [] else Corners(cells[..|cells| - 1]) + CellCorners(cells[|cells| - 1])
  }

  function CountHex(cells: seq<Cell>): nat {
    if |cells| == 0 then 0
    else CountHex(cells[..|cells| - 1]) + (if IsHex(cells[|cells| - 1]) then 1 else 0)
  }

  function CountWedge(cells: seq<Cell>): nat {
    if |cells| == 0 then 0
    else CountWedge(cells[..|cells| - 1]) + (if IsWedge(cells[|cells| - 1]) then 1 else 0)
  }

  /** The face view has 36 triangle corners per hexahedron (six quads, two
      triangles each) and 15 per wedge (five triangles). */
  lemma {:induction false} CornersCount(cells: seq<Cell>)
    ensures |Corners(cells)| == 36 * CountHex(cells) + 15 * CountWedge(cells)
  {
    if |cells| > 0 {
      CornersCount(cells[..|cells| - 1]);
    }
  }

  // ---------------------------------------------------- de-duplication

  /** The face view under construction: `indexMap`, the ids of the vertices
      emitted so far (in the order they were first met) and the index list. */
  datatype FaceState = FaceState(indexOf: map<uint64, nat>, vertexIds: seq<uint64>, indices: seq<nat>)

  const NoFaces := FaceState(map[], [], [])

  /** One corner: an id seen before reuses its vertex; a new id gets the
      next vertex number. Its vertex number is appended to the indices. */
  function Visit(st: FaceState, v: uint64): FaceState {
    if v in st.indexOf then st.(indices := st.indices + [st.indexOf[v]])
    else FaceState(st.indexOf[v := |st.vertexIds|], st.vertexIds + [v], st.indices + [|st.vertexIds|])
  }

  /** Visits every id of ids in order. */
  function VisitAll(st: FaceState, ids: seq<uint64>): FaceState {
    if |ids| == 0 then st else Visit(VisitAll(st, ids[..|ids| - 1]), ids[|ids| - 1])
  }

  /** The vertex map and the vertex list are inverse to each other. */
  predicate Tracks(st: FaceState) {
    && (forall v :: v in st.indexOf ==> st.indexOf[v] < |st.vertexIds| && st.vertexIds[st.indexOf[v]] == v)
    && (forall k :: 0 <= k < |st.vertexIds| ==> st.vertexIds[k] in st.indexOf && st.indexOf[st.vertexIds[k]] == k)
  }

  predicate NoDuplicates(s: seq<uint64>) {
    forall i, j :: 0 <= i < j < |s| ==> s[i] != s[j]
  }

  /** Visiting ids after ids' is visiting ids' + ids. */
  lemma {:induction false} VisitAllAppend(st: FaceState, xs: seq<uint64>, ys: seq<uint64>)
    ensures VisitAll(st, xs + ys) == VisitAll(VisitAll(st, xs), ys)
    decreases |ys|
  {
    if |ys| == 0 {
      assert xs + ys == xs;
    } else {
      assert (xs + ys)[..|xs + ys| - 1] == xs + ys[..|ys| - 1];
      VisitAllAppend(st, xs, ys[..|ys| - 1]);
    }
  }

  /** One visit keeps the map and the list inverse to each other, only
      appends to the vertex list and the indices, and the appended index
      names the vertex of the visited id. */
  lemma VisitKeeps(st: FaceState, v: uint64)
    requires Tracks(st)
    ensures var next := Visit(st, v);
      && Tracks(next)
      && v in next.indexOf
      && next.indices == st.indices + [next.indexOf[v]]
      && |st.vertexIds| <= |next.vertexIds|
      && next.vertexIds[..|st.vertexIds|] == st.vertexIds
      && (forall u :: u in next.indexOf <==> u in st.indexOf || u == v)
  {
    var next := Visit(st, v);
    if v !in st.indexOf {
      assert next.vertexIds[..|st.vertexIds|] == st.vertexIds;
      forall k | 0 <= k < |next.vertexIds|
        ensures next.vertexIds[k] in next.indexOf && next.indexOf[next.vertexIds[k]] == k
      {
        if k < |st.vertexIds| {
          assert next.vertexIds[k] == st.vertexIds[k];
          assert st.vertexIds[k] != v;
        }
      }
    } else {
      assert next.vertexIds[..|st.vertexIds|] == st.vertexIds;
    }
  }

  /** A vertex list that the map inverts has no id twice. */
  lemma TracksNoDuplicates(st: FaceState)
    requires Tracks(st)
    ensures NoDuplicates(st.vertexIds)
    ensures forall v :: v in st.vertexIds <==> v in st.indexOf
  {
    forall v | v in st.vertexIds ensures v in st.indexOf {
      var k :| 0 <= k < |st.vertexIds| && st.vertexIds[k] == v;
    }
  }

  /** What the face view of ids guarantees: each index names the vertex of
      its corner's id, and the vertex ids are exactly the ids met. */
  ghost predicate ViewOf(st: FaceState, ids: seq<uint64>) {
    && Tracks(st)
    && |st.indices| == |ids|
    && (forall k :: 0 <= k < |ids| ==> st.indices[k] < |st.vertexIds| && st.vertexIds[st.indices[k]] == ids[k])
    && (forall u :: u in st.indexOf <==> u in ids)
  }

  /** Visiting one more id extends a view of ids to a view of ids + [v]. */
  lemma VisitExtendsView(st: FaceState, ids: seq<uint64>, v: uint64)
    requires ViewOf(st, ids)
    ensures ViewOf(Visit(st, v), ids + [v])
  {
    var next := Visit(st, v);
    var all := ids + [v];
    VisitKeeps(st, v);
    forall k | 0 <= k < |all|
      ensures next.indices[k] < |next.vertexIds| && next.vertexIds[next.indices[k]] == all[k]
    {
      if k < |ids| {
        var i := st.indices[k];
        assert next.indices[k] == i && i < |st.vertexIds|;
        assert next.vertexIds[i] == next.vertexIds[..|st.vertexIds|][i];
      } else {
        assert k == |ids| && next.indices[k] == next.indexOf[v];
      }
    }
    forall u ensures u in next.indexOf <==> u in all {
      assert u in all <==> u in ids || u == v;
    }
  }

  /** The face view is correct: the vertex list holds each corner id exactly
      once, every corner's index names the vertex of that id, and the map
      stays the inverse of the vertex list. */
  lemma {:induction false} VisitAllCorrect(ids: seq<uint64>)
    ensures var st := VisitAll(NoFaces, ids);
      && Tracks(st)
      && NoDuplicates(st.vertexIds)
      && |st.indices| == |ids|
      && (forall k :: 0 <= k < |ids| ==> st.indices[k] < |st.vertexIds| && st.vertexIds[st.indices[k]] == ids[k])
      && (forall v :: v in st.vertexIds <==> v in ids)
  {
    ViewOfAll(ids);
    TracksNoDuplicates(VisitAll(NoFaces, ids));
  }

  lemma {:induction false} ViewOfAll(ids: seq<uint64>)
    ensures ViewOf(VisitAll(NoFaces, ids), ids)
  {
    if |ids| > 0 {
      var prev := ids[..|ids| - 1];
      ViewOfAll(prev);
      VisitExtendsView(VisitAll(NoFaces, prev), prev, ids[|ids| - 1]);
      assert prev + [ids[|ids| - 1]] == ids;
    }
  }

  /** The distinct ids of a list, each where it first occurs. */
  function FirstOccurrences(ids: seq<uint64>): seq<uint64> {
    if |ids| == 0 then []
    else
      var prev := FirstOccurrences(ids[..|ids| - 1]);
      if ids[|ids| - 1] in prev then prev else prev + [ids[|ids| - 1]]
  }

  /** The vertex list of the face view is in first-reference order: vertex m
      is the m-th distinct id met. */
  lemma {:induction false} VertexIdsInFirstOrder(ids: seq<uint64>)
    ensures VisitAll(NoFaces, ids).vertexIds == FirstOccurrences(ids)
  {
    if |ids| > 0 {
      var prev := ids[..|ids| - 1];
      VertexIdsInFirstOrder(prev);
      ViewOfAll(prev);
      TracksNoDuplicates(VisitAll(NoFaces, prev));
    }
  }

  /** Vertex list and index list of the face view of cells. */
  function FaceView(cells: seq<Cell>): FaceState {
    VisitAll(NoFaces, Corners(cells))
  }

  /** What the face view draws: one index per triangle corner, 36 per
      hexahedron and 15 per wedge; each index names a vertex whose id is that
      corner's node id; and the vertex list holds every corner id once. */
  lemma FaceViewCorrect(cells: seq<Cell>)
    ensures var view := FaceView(cells);
      && |view.indices| == |Corners(cells)| == 36 * CountHex(cells) + 15 * CountWedge(cells)
      && (forall k :: 0 <= k < |view.indices| ==>
            view.indices[k] < |view.vertexIds| && view.vertexIds[view.indices[k]] == Corners(cells)[k])
      && NoDuplicates(view.vertexIds)
      && (forall v :: v in view.vertexIds <==> v in Corners(cells))
  {
    VisitAllCorrect(Corners(cells));
    CornersCount(cells);
  }

  /** The ids a list holds. */
  function Elements(s: seq<uint64>): set<uint64> {
    set x | x in s
  }

  /** A duplicate-free list has as many elements as its set. */
  lemma {:induction false} NoDuplicatesCard(s: seq<uint64>)
    requires NoDuplicates(s)
    ensures |Elements(s)| == |s|
  {
    if |s| > 0 {
      var prev := s[..|s| - 1];
      var last := s[|s| - 1];
      NoDuplicatesCard(prev);
      assert s == prev + [last];
      assert Elements(s) == Elements(prev) + {last};
      assert last !in Elements(prev);
    } else {
      assert Elements(s) == {};
    }
  }

  /** The corners of a hexahedron meet each of its eight ids. */
  lemma HexCornersCover(c: Cell)
    requires IsHex(c)
    ensures Elements(CellCorners(c)) == Elements(c.conn)
  {
    var corners := CellCorners(c);
    assert corners[0] == c.conn[0] && corners[1] == c.conn[1] && corners[2] == c.conn[2];
    assert corners[5] == c.conn[3] && corners[6] == c.conn[4] && corners[7] == c.conn[5];
    assert corners[8] == c.conn[6] && corners[11] == c.conn[7];
    forall v | v in c.conn ensures v in corners {
      var i :| 0 <= i < 8 && c.conn[i] == v;
    }
  }

  /** The face view has one vertex per distinct corner id and one index per
      corner. */
  lemma FaceViewSizes(cells: seq<Cell>)
    ensures |FaceView(cells).vertexIds| == |Elements(Corners(cells))|
    ensures |FaceView(cells).indices| == |Corners(cells)|
  {
    var ids := Corners(cells);
    var view := VisitAll(NoFaces, ids);
    ViewOfAll(ids);
    TracksNoDuplicates(view);
    assert Elements(view.vertexIds) == Elements(ids);
    NoDuplicatesCard(view.vertexIds);
  }

  /** A single hexahedron with eight distinct ids gives a face view of
      exactly its eight points and 36 indices (12 triangles). */
  lemma SingleHexFaceView(c: Cell)
    requires IsHex(c) && NoDuplicates(c.conn)
    ensures |FaceView([c]).vertexIds| == 8 && |FaceView([c]).indices| == 36
  {
    assert Corners([c]) == CellCorners(c) by {
      assert [c][..0] == [];
    }
    FaceViewSizes([c]);
    HexCornersCover(c);
    NoDuplicatesCard(c.conn);
  }

  // --------------------------------------------------------- edge view

  /** The two ids of each template edge, converted to `unsigned int`. */
  function EdgePairs(conn: seq<uint64>, edges: seq<(nat, nat)>): (r: seq<uint32>)
    requires forall k :: 0 <= k < |edges| ==> edges[k].0 < |conn| && edges[k].1 < |conn|
    ensures |r| == 2 * |edges|
  {
    if |edges| == 0 then []
    else
      var e := edges[|edges| - 1];
      EdgePairs(conn, edges[..|edges| - 1]) + [AsUint32(conn[e.0]), AsUint32(conn[e.1])]
  }

  /** Edge k of the template becomes the pair of indices 2k, 2k + 1. */
  lemma {:induction false} EdgePairsAt(conn: seq<uint64>, edges: seq<(nat, nat)>, k: nat)
    requires forall j :: 0 <= j < |edges| ==> edges[j].0 < |conn| && edges[j].1 < |conn|
    requires k < |edges|
    ensures EdgePairs(conn, edges)[2 * k] == AsUint32(conn[edges[k].0])
    ensures EdgePairs(conn, edges)[2 * k + 1] == AsUint32(conn[edges[k].1])
    decreases |edges|
  {
    if k < |edges| - 1 {
      EdgePairsAt(conn, edges[..|edges| - 1], k);
    }
  }

  /** The line indices one cell contributes: its template's edge pairs, or
      nothing for a cell that is neither a wedge nor a hexahedron. */
  function CellEdgeIds(c: Cell): (r: seq<uint32>)
    ensures |r| == if IsWedge(c) then 18 else if IsHex(c) then 24 else 0
  {
    TemplatesValid();
    if IsWedge(c) then EdgePairs(c.conn, WedgeEdges)
    else if IsHex(c) then EdgePairs(c.conn, HexEdges)
    else []
  }

  /** The line indices of all cells, cell after cell. */
  function EdgeIds(cells: seq<Cell>): seq<uint32> {
    if |cells| == 0 then [] else EdgeIds(cells[..|cells| - 1]) + CellEdgeIds(cells[|cells| - 1])
  }

  /** The edge view has 9 lines (18 indices) per wedge and 12 lines (24
      indices) per hexahedron. */
  lemma {:induction false} EdgeIdsCount(cells: seq<Cell>)
    ensures |EdgeIds(cells)| == 18 * CountWedge(cells) + 24 * CountHex(cells)
  {
    if |cells| > 0 {
      EdgeIdsCount(cells[..|cells| - 1]);
    }
  }

  /** The ids of the wedges and hexahedra all index the point array. */
  predicate IdsInRange(geometry: seq<Point3>, cells: seq<Cell>) {
    forall c, v :: c in cells && (IsHex(c) || IsWedge(c)) && v in c.conn ==> v < |geometry|
  }

  /** When the point array has fewer than 2^32 points and every id of a
      wedge or hexahedron indexes it, the 32-bit truncation changes no index
      and every line index names a point. */
  lemma {:induction false} EdgeIdsInRange(geometry: seq<Point3>, cells: seq<Cell>)
    requires |geometry| <= TWO_TO_32 && IdsInRange(geometry, cells)
    ensures forall k :: 0 <= k < |EdgeIds(cells)| ==> EdgeIds(cells)[k] < |geometry|
  {
    if |cells| > 0 {
      var prev := cells[..|cells| - 1];
      var c := cells[|cells| - 1];
      assert IdsInRange(geometry, prev) by {
        forall d | d in prev ensures d in cells {
        }
      }
      EdgeIdsInRange(geometry, prev);
      TemplatesValid();
      if IsWedge(c) || IsHex(c) {
        var edges := if IsWedge(c) then WedgeEdges else HexEdges;
        forall k | 0 <= k < |CellEdgeIds(c)| ensures CellEdgeIds(c)[k] < |geometry| {
          EdgePairsAt(c.conn, edges, k / 2);
          var v := if k % 2 == 0 then c.conn[edges[k / 2].0] else c.conn[edges[k / 2].1];
          assert v in c.conn;
          assert CellEdgeIds(c)[k] == AsUint32(v);
        }
      }
      var r := EdgeIds(cells);
      forall k | 0 <= k < |r| ensures r[k] < |geometry| {
        if k >= |EdgeIds(prev)| {
          assert r[k] == CellEdgeIds(c)[k - |EdgeIds(prev)|];
        }
      }
    }
  }

  // ------------------------------------------------------------- mesh

  /** The points of the given ids, in order. */
  function Positions(geometry: seq<Point3>, ids: seq<uint64>): (ps: seq<Point3>)
    requires forall k :: 0 <= k < |ids| ==> ids[k] < |geometry|
    ensures |ps| == |ids|
    ensures forall k :: 0 <= k < |ids| ==> ps[k] == geometry[ids[k]]
  {
    seq(|ids|, k requires 0 <= k < |ids| => geometry[ids[k]])
  }

  /** The inner loop of the face view: visits the corners of one face. */
  method EmitCorners(geometry: seq<Point3>, indexMap: map<uint64, nat>, tempVertices: seq<Point3>,
                     tempIndices: seq<nat>, ghost vertexIds: seq<uint64>, fan: seq<uint64>)
    returns (indexMap': map<uint64, nat>, tempVertices': seq<Point3>, tempIndices': seq<nat>,
             ghost vertexIds': seq<uint64>)
    requires forall k :: 0 <= k < |vertexIds| ==> vertexIds[k] < |geometry|
    requires forall v :: v in fan ==> v < |geometry|
    requires tempVertices == Positions(geometry, vertexIds)
    ensures FaceState(indexMap', vertexIds', tempIndices') ==
      VisitAll(FaceState(indexMap, vertexIds, tempIndices), fan)
    ensures forall k :: 0 <= k < |vertexIds'| ==> vertexIds'[k] < |geometry|
    ensures tempVertices' == Positions(geometry, vertexIds')
  {
    indexMap', tempVertices', tempIndices', vertexIds' := indexMap, tempVertices, tempIndices, vertexIds;
    for t := 0 to |fan|
      invariant FaceState(indexMap', vertexIds', tempIndices') ==
        VisitAll(FaceState(indexMap, vertexIds, tempIndices), fan[..t])
      invariant forall k :: 0 <= k < |vertexIds'| ==> vertexIds'[k] < |geometry|
      invariant tempVertices' == Positions(geometry, vertexIds')
    {
      var vid := fan[t];
      assert vid in fan;
      assert fan[..t + 1][..t] == fan[..t];
      if vid !in indexMap' {
        indexMap' := indexMap'[vid := |tempVertices'|];
        tempVertices' := tempVertices' + [geometry[vid]];
        vertexIds' := vertexIds' + [vid];
      }
      tempIndices' := tempIndices' + [indexMap'[vid]];
    }
    assert fan[..|fan|] == fan;
  }

  /** The corners of hexahedron face f, in fan order, follow the corners of
      the faces before it. */
  lemma HexFan(c: Cell, f: nat)
    requires IsHex(c) && f < 6
    ensures |HexFaces[f]| == 4 && HexFaces[f][0] < 8 && HexFaces[f][1] < 8
    ensures HexFaces[f][2] < 8 && HexFaces[f][3] < 8
    ensures var face := HexFaces[f];
      CellCorners(c)[..6 * (f + 1)] == CellCorners(c)[..6 * f] +
        [c.conn[face[0]], c.conn[face[1]], c.conn[face[2]], c.conn[face[0]], c.conn[face[2]], c.conn[face[3]]]
  {
    var face := HexFaces[f];
    var fan := [c.conn[face[0]], c.conn[face[1]], c.conn[face[2]], c.conn[face[0]], c.conn[face[2]], c.conn[face[3]]];
    forall t | 0 <= t < 6 ensures CellCorners(c)[6 * f + t] == fan[t] {
      assert (6 * f + t) / 6 == f && (6 * f + t) % 6 == t;
    }
  }

  /** The corners of wedge face f follow the corners of the faces before it. */
  lemma WedgeFan(c: Cell, f: nat)
    requires IsWedge(c) && f < 5
    ensures |WedgeFaces[f]| == 3 && WedgeFaces[f][0] < 6 && WedgeFaces[f][1] < 6 && WedgeFaces[f][2] < 6
    ensures var face := WedgeFaces[f];
      CellCorners(c)[..3 * (f + 1)] == CellCorners(c)[..3 * f] +
        [c.conn[face[0]], c.conn[face[1]], c.conn[face[2]]]
  {
    var face := WedgeFaces[f];
    var fan := [c.conn[face[0]], c.conn[face[1]], c.conn[face[2]]];
    forall t | 0 <= t < 3 ensures CellCorners(c)[3 * f + t] == fan[t] {
      assert (3 * f + t) / 3 == f && (3 * f + t) % 3 == t;
    }
  }

  /** The face loop of one hexahedron: six quads, each as two triangles. */
  method EmitHexFaces(geometry: seq<Point3>, indexMap: map<uint64, nat>, tempVertices: seq<Point3>,
                      tempIndices: seq<nat>, ghost vertexIds: seq<uint64>, elem: Cell)
    returns (indexMap': map<uint64, nat>, tempVertices': seq<Point3>, tempIndices': seq<nat>,
             ghost vertexIds': seq<uint64>)
    requires IsHex(elem)
    requires forall k :: 0 <= k < |vertexIds| ==> vertexIds[k] < |geometry|
    requires forall j :: 0 <= j < |elem.conn| ==> elem.conn[j] < |geometry|
    requires tempVertices == Positions(geometry, vertexIds)
    ensures FaceState(indexMap', vertexIds', tempIndices') ==
      VisitAll(FaceState(indexMap, vertexIds, tempIndices), CellCorners(elem))
    ensures forall k :: 0 <= k < |vertexIds'| ==> vertexIds'[k] < |geometry|
    ensures tempVertices' == Positions(geometry, vertexIds')
  {
    ghost var start := FaceState(indexMap, vertexIds, tempIndices);
    indexMap', tempVertices', tempIndices', vertexIds' := indexMap, tempVertices, tempIndices, vertexIds;
    var conn := elem.conn;
    for f := 0 to 6
      invariant FaceState(indexMap', vertexIds', tempIndices') == VisitAll(start, CellCorners(elem)[..6 * f])
      invariant forall k :: 0 <= k < |vertexIds'| ==> vertexIds'[k] < |geometry|
      invariant tempVertices' == Positions(geometry, vertexIds')
    {
      HexFan(elem, f);
      var face := HexFaces[f];
      var a, b, c, d := conn[face[0]], conn[face[1]], conn[face[2]], conn[face[3]];
      assert a < |geometry| && b < |geometry| && c < |geometry| && d < |geometry|;
      var fan := [a, b, c, a, c, d];
      VisitAllAppend(start, CellCorners(elem)[..6 * f], fan);
      indexMap', tempVertices', tempIndices', vertexIds' :=
        EmitCorners(geometry, indexMap', tempVertices', tempIndices', vertexIds', fan);
    }
    assert CellCorners(elem)[..36] == CellCorners(elem);
  }

  /** The face loop of one wedge: five triangles. */
  method EmitWedgeFaces(geometry: seq<Point3>, indexMap: map<uint64, nat>, tempVertices: seq<Point3>,
                        tempIndices: seq<nat>, ghost vertexIds: seq<uint64>, elem: Cell)
    returns (indexMap': map<uint64, nat>, tempVertices': seq<Point3>, tempIndices': seq<nat>,
             ghost vertexIds': seq<uint64>)
    requires IsWedge(elem)
    requires forall k :: 0 <= k < |vertexIds| ==> vertexIds[k] < |geometry|
    requires forall j :: 0 <= j < |elem.conn| ==> elem.conn[j] < |geometry|
    requires tempVertices == Positions(geometry, vertexIds)
    ensures FaceState(indexMap', vertexIds', tempIndices') ==
      VisitAll(FaceState(indexMap, vertexIds, tempIndices), CellCorners(elem))
    ensures forall k :: 0 <= k < |vertexIds'| ==> vertexIds'[k] < |geometry|
    ensures tempVertices' == Positions(geometry, vertexIds')
  {
    ghost var start := FaceState(indexMap, vertexIds, tempIndices);
    indexMap', tempVertices', tempIndices', vertexIds' := indexMap, tempVertices, tempIndices, vertexIds;
    var conn := elem.conn;
    for f := 0 to 5
      invariant FaceState(indexMap', vertexIds', tempIndices') == VisitAll(start, CellCorners(elem)[..3 * f])
      invariant forall k :: 0 <= k < |vertexIds'| ==> vertexIds'[k] < |geometry|
      invariant tempVertices' == Positions(geometry, vertexIds')
    {
      WedgeFan(elem, f);
      var face := WedgeFaces[f];
      var a, b, c := conn[face[0]], conn[face[1]], conn[face[2]];
      assert a < |geometry| && b < |geometry| && c < |geometry|;
      var fan := [a, b, c];
      VisitAllAppend(start, CellCorners(elem)[..3 * f], fan);
      indexMap', tempVertices', tempIndices', vertexIds' :=
        EmitCorners(geometry, indexMap', tempVertices', tempIndices', vertexIds', fan);
    }
    assert CellCorners(elem)[..15] == CellCorners(elem);
  }

  /** The body of the cell loop of `mesh_face`: the faces of a hexahedron
      or a wedge, nothing for any other cell. */
  method EmitCellFaces(geometry: seq<Point3>, indexMap: map<uint64, nat>, tempVertices: seq<Point3>,
                       tempIndices: seq<nat>, ghost vertexIds: seq<uint64>, elem: Cell)
    returns (indexMap': map<uint64, nat>, tempVertices': seq<Point3>, tempIndices': seq<nat>,
             ghost vertexIds': seq<uint64>)
    requires forall k :: 0 <= k < |vertexIds| ==> vertexIds[k] < |geometry|
    requires IsHex(elem) || IsWedge(elem) ==> forall v :: v in elem.conn ==> v < |geometry|
    requires tempVertices == Positions(geometry, vertexIds)
    ensures FaceState(indexMap', vertexIds', tempIndices') ==
      VisitAll(FaceState(indexMap, vertexIds, tempIndices), CellCorners(elem))
    ensures forall k :: 0 <= k < |vertexIds'| ==> vertexIds'[k] < |geometry|
    ensures tempVertices' == Positions(geometry, vertexIds')
  {
    assert forall j :: 0 <= j < |elem.conn| ==> elem.conn[j] in elem.conn;
    if elem.cellType == 9 && |elem.conn| == 8 {
      indexMap', tempVertices', tempIndices', vertexIds' :=
        EmitHexFaces(geometry, indexMap, tempVertices, tempIndices, vertexIds, elem);
    } else if elem.cellType == 8 && |elem.conn| == 6 {
      indexMap', tempVertices', tempIndices', vertexIds' :=
        EmitWedgeFaces(geometry, indexMap, tempVertices, tempIndices, vertexIds, elem);
    } else {
      assert CellCorners(elem) == [];
      indexMap', tempVertices', tempIndices', vertexIds' := indexMap, tempVertices, tempIndices, vertexIds;
    }
  }

  class Mesh {
    /** The loader's point array and cells, copied when the mesh is built. */
    const geometry: seq<Point3>
    const mixedTopology: seq<Cell>

    var vertices: seq<Point3>
    var triangleIndices: seq<nat>
    var lineIndices: seq<uint32>

    /** Builds the edge view when wireframe is set, the face view otherwise. */
    constructor (loader: MixedLoader.XdmfMeshLoader, wireframe: bool)
      requires !wireframe ==> IdsInRange(loader.geometry, loader.mixedTopology)
      ensures geometry == loader.geometry && mixedTopology == loader.mixedTopology
      ensures wireframe ==>
        vertices == geometry && triangleIndices == [] && lineIndices == EdgeIds(mixedTopology)
      ensures !wireframe ==>
        var view := FaceView(mixedTopology);
        && (forall k :: 0 <= k < |view.vertexIds| ==> view.vertexIds[k] < |geometry|)
        && vertices == Positions(geometry, view.vertexIds)
        && triangleIndices == view.indices
        && lineIndices == []
    {
      geometry := loader.geometry;
      mixedTopology := loader.mixedTopology;
      vertices := [];
      triangleIndices := [];
      lineIndices := [];
      new;
      if wireframe {
        MeshLine();
      } else {
        MeshFace();
      }
    }

    /** `mesh_face`: every hexahedron face as two triangles, every wedge face
        as one, over vertices shared through `indexMap`. */
    method MeshFace()
      requires IdsInRange(geometry, mixedTopology)
      modifies this`vertices, this`triangleIndices
      ensures var view := FaceView(mixedTopology);
        && (forall k :: 0 <= k < |view.vertexIds| ==> view.vertexIds[k] < |geometry|)
        && vertices == Positions(geometry, view.vertexIds)
        && triangleIndices == view.indices
    {
      var indexMap: map<uint64, nat> := map[];
      var tempVertices: seq<Point3> := [];
      var tempIndices: seq<nat> := [];
      ghost var vertexIds: seq<uint64> := [];
      for e := 0 to |mixedTopology|
        invariant FaceState(indexMap, vertexIds, tempIndices) == FaceView(mixedTopology[..e])
        invariant forall k :: 0 <= k < |vertexIds| ==> vertexIds[k] < |geometry|
        invariant tempVertices == Positions(geometry, vertexIds)
      {
        var elem := mixedTopology[e];
        ghost var done := Corners(mixedTopology[..e]);
        assert elem in mixedTopology;
        indexMap, tempVertices, tempIndices, vertexIds :=
          EmitCellFaces(geometry, indexMap, tempVertices, tempIndices, vertexIds, elem);
        assert mixedTopology[..e + 1][..e] == mixedTopology[..e];
        VisitAllAppend(NoFaces, done, CellCorners(elem));
      }
      assert mixedTopology[..|mixedTopology|] == mixedTopology;
      vertices := tempVertices;
      triangleIndices := tempIndices;
    }

    /** `mesh_line`: appends every point to the vertices, then the edge
        template of every wedge and hexahedron to the line indices. */
    method MeshLine()
      modifies this`vertices, this`lineIndices
      ensures vertices == old(vertices) + geometry
      ensures lineIndices == old(lineIndices) + EdgeIds(mixedTopology)
    {
      for k := 0 to |geometry|
        invariant vertices == old(vertices) + geometry[..k]
        invariant lineIndices == old(lineIndices)
      {
        assert geometry[..k + 1] == geometry[..k] + [geometry[k]];
        vertices := vertices + [geometry[k]];
      }
      assert geometry[..|geometry|] == geometry;
      assert mixedTopology[..0] == [] && old(lineIndices) + [] == old(lineIndices);
      for e := 0 to |mixedTopology|
        invariant vertices == old(vertices) + geometry
        invariant lineIndices == old(lineIndices) + EdgeIds(mixedTopology[..e])
      {
        assert mixedTopology[..e + 1][..e] == mixedTopology[..e];
        AddCellEdges(mixedTopology[e]);
      }
      assert mixedTopology[..|mixedTopology|] == mixedTopology;
    }

    /** The body of the cell loop of `mesh_line`: the template edges of a
        wedge or a hexahedron, nothing for any other cell. */
    method AddCellEdges(elem: Cell)
      modifies this`lineIndices
      ensures lineIndices == old(lineIndices) + CellEdgeIds(elem)
    {
      TemplatesValid();
      if elem.cellType == 8 && |elem.conn| == 6 {
        AddEdges(elem.conn, WedgeEdges);
      } else if elem.cellType == 9 && |elem.conn| == 8 {
        AddEdges(elem.conn, HexEdges);
      } else {
        assert CellEdgeIds(elem) == [];
        assert lineIndices + [] == lineIndices;
      }
    }

    /** `AddEdges`: appends the two ids of every edge of the template. */
    method AddEdges(conn: seq<uint64>, edges: seq<(nat, nat)>)
      requires forall k :: 0 <= k < |edges| ==> edges[k].0 < |conn| && edges[k].1 < |conn|
      modifies this`lineIndices
      ensures lineIndices == old(lineIndices) + EdgePairs(conn, edges)
    {
      for k := 0 to |edges|
        invariant lineIndices == old(lineIndices) + EdgePairs(conn, edges[..k])
      {
        var (i, j) := edges[k];
        assert edges[..k + 1][..k] == edges[..k];
        lineIndices := lineIndices + [AsUint32(conn[i])];
        lineIndices := lineIndices + [AsUint32(conn[j])];
      }
      assert edges[..|edges|] == edges;
    }
  }
}
