/** The render mesh of the 2.0.0 viewer (`Mesh` in `src/main-2.0.0.cpp`):
    it loads the descriptor, accepts only four-node elements over 2D or 3D
    points, reads the two datasets and expands every quad into its four
    edges for line drawing. */
module QuadMesh {
  import opened Common
  import opened Locator
  import opened Xml
  import opened QuadLoader

  // --------------------------------------------------------- quad edges

  /** The position within a quad (a, b, c, d) of each of the eight line
      indices it becomes: a, b, b, c, c, d, d, a. */
  const EdgeOrder: seq<nat> := [0, 1, 1, 2, 2, 3, 3, 0]

  /** The eight line indices of one quad, each id narrowed to `unsigned int`. */
  function QuadEdges(q: seq<uint64>): (r: seq<uint32>)
    requires |q| == 4
    ensures |r| == 8
  {
    [AsUint32(q[0]), AsUint32(q[1]), AsUint32(q[1]), AsUint32(q[2]),
     AsUint32(q[2]), AsUint32(q[3]), AsUint32(q[3]), AsUint32(q[0])]
  }

  /** The line indices of a list of quads, quad after quad. */
  function LineIndices(quads: seq<uint64>): seq<uint32>
    requires |quads| % 4 == 0
  {
    if |quads| == 0 then []
    else LineIndices(quads[..|quads| - 4]) + QuadEdges(quads[|quads| - 4..])
  }

  lemma {:induction false} LineIndicesLength(quads: seq<uint64>)
    requires |quads| % 4 == 0
    ensures |LineIndices(quads)| == 2 * |quads|
  {
    if |quads| > 0 {
      LineIndicesLength(quads[..|quads| - 4]);
    }
  }

  lemma QuotientByEight(i: int, m: int)
    requires 8 * m <= i < 8 * m + 8
    ensures i / 8 == m && i % 8 == i - 8 * m
  {
  }

  /** Line index i comes from position `EdgeOrder[i % 8]` of quad `i / 8`. */
  lemma {:induction false} LineIndexAt(quads: seq<uint64>, i: int)
    requires |quads| % 4 == 0
    requires 0 <= i < 2 * |quads|
    ensures 4 * (i / 8) + EdgeOrder[i % 8] < |quads|
    ensures |LineIndices(quads)| == 2 * |quads|
    ensures LineIndices(quads)[i] == AsUint32(quads[4 * (i / 8) + EdgeOrder[i % 8]])
  {
    var prev := quads[..|quads| - 4];
    var last := quads[|quads| - 4..];
    LineIndicesLength(quads);
    LineIndicesLength(prev);
    var r := LineIndices(quads);
    assert r == LineIndices(prev) + QuadEdges(last);
    if i < 2 * |prev| {
      LineIndexAt(prev, i);
      assert r[i] == LineIndices(prev)[i];
      assert prev[4 * (i / 8) + EdgeOrder[i % 8]] == quads[4 * (i / 8) + EdgeOrder[i % 8]];
    } else {
      var j := i - 2 * |prev|;
      QuotientByEight(i, |prev| / 4);
      assert r[i] == QuadEdges(last)[j];
      assert last[EdgeOrder[j]] == quads[|prev| + EdgeOrder[j]];
    }
  }

  /** `4n` ids become `8n` line indices, and line index `8k + j` is the id
      at position `EdgeOrder[j]` of quad k, narrowed to 32 bits: each quad
      (a, b, c, d) becomes a, b, b, c, c, d, d, a, in quad order. */
  lemma LineIndicesAt(quads: seq<uint64>)
    requires |quads| % 4 == 0
    ensures |LineIndices(quads)| == 2 * |quads|
    ensures forall i :: 0 <= i < |LineIndices(quads)| ==>
      4 * (i / 8) + EdgeOrder[i % 8] < |quads| &&
      LineIndices(quads)[i] == AsUint32(quads[4 * (i / 8) + EdgeOrder[i % 8]])
  {
    LineIndicesLength(quads);
    forall i | 0 <= i < |LineIndices(quads)|
      ensures 4 * (i / 8) + EdgeOrder[i % 8] < |quads|
      ensures LineIndices(quads)[i] == AsUint32(quads[4 * (i / 8) + EdgeOrder[i % 8]])
    {
      LineIndexAt(quads, i);
    }
  }

  /** When every id fits in 32 bits the narrowing changes nothing: each line
      index is an id of its quad. */
  lemma LineIndicesKeepSmallIds(quads: seq<uint64>)
    requires |quads| % 4 == 0
    requires forall i :: 0 <= i < |quads| ==> quads[i] < TWO_TO_32
    ensures forall i :: 0 <= i < |LineIndices(quads)| ==>
      4 * (i / 8) + EdgeOrder[i % 8] < |quads| &&
      LineIndices(quads)[i] == quads[4 * (i / 8) + EdgeOrder[i % 8]]
  {
    LineIndicesAt(quads);
    forall i | 0 <= i < |quads| ensures AsUint32(quads[i]) == quads[i] {
      AsUint32InRange(quads[i]);
    }
  }

  /** `QuadToLineIndices`: a stride-4 walk over the quad ids pushing the
      eight line indices of each quad. */
  method QuadToLineIndices(quads: seq<uint64>) returns (lines: seq<uint32>)
    requires |quads| % 4 == 0
    ensures lines == LineIndices(quads)
  {
    lines := [];
    var i := 0;
    while i < |quads|
      invariant 0 <= i <= |quads| && i % 4 == 0
      invariant lines == LineIndices(quads[..i])
    {
      var a := AsUint32(quads[i]);
      var b := AsUint32(quads[i + 1]);
      var c := AsUint32(quads[i + 2]);
      var d := AsUint32(quads[i + 3]);
      assert quads[..i + 4][..i] == quads[..i];
      assert quads[..i + 4][i..] == quads[i..i + 4];
      lines := lines + [a, b];
      lines := lines + [b, c];
      lines := lines + [c, d];
      lines := lines + [d, a];
      i := i + 4;
    }
    assert quads[..i] == quads;
  }

  // ------------------------------------------------------------ datasets

  /** What the HDF5 library delivers for each (file, dataset) pair when the
      dataset is read as `double` and as `uint64_t`. */
  datatype Files = Files(
    doubles: map<(string, string), seq<real>>,
    uint64s: map<(string, string), seq<uint64>>)

  /** A buffer of n elements, value-initialised to zero, over which the
      values read are copied from the start. */
  function Fill<T>(data: seq<T>, n: nat, zero: T): (r: seq<T>)
    ensures |r| == n
    ensures forall k :: 0 <= k < n ==> r[k] == if k < |data| then data[k] else zero
  {
    seq(n, k requires 0 <= k < n => if k < |data| then data[k] else zero)
  }

  /** `ReadGeometryData`: splits the locator (a locator without ':' throws,
      None), allocates `count` doubles (a negative count throws, None) and
      reads the dataset into them; a file or dataset that does not open
      leaves the zeros. */
  function ReadPoints(files: Files, hdf5Path: string, count: int): (r: Option<seq<real>>)
    ensures r.Some? <==> ':' in hdf5Path && count >= 0
    ensures r.Some? ==> |r.value| == count
    ensures r.Some? ==>
      var location := ParseHDF5Path(hdf5Path).value;
      forall k :: 0 <= k < count ==>
        r.value[k] == if location in files.doubles && k < |files.doubles[location]|
                      then files.doubles[location][k] else 0.0
  {
    match ParseHDF5Path(hdf5Path)
    case None => None
    case Some(location) =>
      if count < 0 then None
      else Some(Fill(if location in files.doubles then files.doubles[location] else [], count, 0.0))
  }

  /** `ReadTopologyData`: the same for `count` ids of type `uint64_t`. */
  function ReadIndices(files: Files, hdf5Path: string, count: int): (r: Option<seq<uint64>>)
    ensures r.Some? <==> ':' in hdf5Path && count >= 0
    ensures r.Some? ==> |r.value| == count
    ensures r.Some? ==>
      var location := ParseHDF5Path(hdf5Path).value;
      forall k :: 0 <= k < count ==>
        r.value[k] == if location in files.uint64s && k < |files.uint64s[location]|
                      then files.uint64s[location][k] else 0
  {
    match ParseHDF5Path(hdf5Path)
    case None => None
    case Some(location) =>
      if count < 0 then None
      else Some(Fill(if location in files.uint64s then files.uint64s[location] else [], count, 0))
  }

  // ---------------------------------------------------------------- mesh

  lemma MultipleOfFour(n: int)
    ensures (n * 4) % 4 == 0
  {
  }

  /** How the constructor ended: with the buffers built, at one of its three
      early returns, or by an exception out of a dataset read. */
  datatype BuildStatus = Built | LoadFailed(error: QuadError) | NotQuads | UnsupportedDim | ReadAborted

  /** The buffers the constructor leaves once the loader has run with the
      given outcome: (status, vertices, quad ids, line indices). This is the
      specification of the method `CheckAndRead`. */
  function Checked(failure: Option<QuadError>, mesh: MeshData, files: Files): (BuildStatus, seq<real>, seq<uint64>, seq<uint32>) {
    if failure.Some? then (LoadFailed(failure.value), [], [], [])
    else if mesh.topology.nodesPerElement != 4 then (NotQuads, [], [], [])
    else if mesh.geometry.dim != 2 && mesh.geometry.dim != 3 then (UnsupportedDim, [], [], [])
    else
      match ReadPoints(files, mesh.geometry.hdf5Path, mesh.geometry.numPoints * mesh.geometry.dim)
      case None => (ReadAborted, [], [], [])
      case Some(vertices) =>
        match ReadIndices(files, mesh.topology.hdf5Path, mesh.topology.numElements * 4)
        case None => (ReadAborted, vertices, [], [])
        case Some(quads) =>
          MultipleOfFour(mesh.topology.numElements);
          (Built, vertices, quads, LineIndices(quads))
  }

  /** The buffers the constructor leaves for a descriptor. */
  function Build(doc: Option<Document>, files: Files): (BuildStatus, seq<real>, seq<uint64>, seq<uint32>) {
    var (failure, mesh) := LoadEffect(EmptyMesh, doc);
    Checked(failure, mesh, files)
  }

  /** Buffers are built only for a loaded descriptor with four nodes per
      element and 2 or 3 coordinates per point; then there are
      dim * numPoints coordinates, 4 ids per element and 8 line indices per
      element. */
  lemma BuildOnlyQuads(doc: Option<Document>, files: Files)
    requires Build(doc, files).0 == Built
    ensures var (failure, mesh) := LoadEffect(EmptyMesh, doc);
      var (_, vertices, quads, lines) := Build(doc, files);
      && failure.None?
      && mesh.topology.nodesPerElement == 4
      && (mesh.geometry.dim == 2 || mesh.geometry.dim == 3)
      && |vertices| == mesh.geometry.numPoints * mesh.geometry.dim
      && |quads| == 4 * mesh.topology.numElements
      && |lines| == 8 * mesh.topology.numElements
  {
    var (failure, mesh) := LoadEffect(EmptyMesh, doc);
    assert Build(doc, files) == Checked(failure, mesh, files);
    var points := ReadPoints(files, mesh.geometry.hdf5Path, mesh.geometry.numPoints * mesh.geometry.dim);
    var read := ReadIndices(files, mesh.topology.hdf5Path, mesh.topology.numElements * 4);
    assert points.Some? && read.Some?;
    var quads := read.value;
    MultipleOfFour(mesh.topology.numElements);
    assert Checked(failure, mesh, files) == (Built, points.value, quads, LineIndices(quads));
    LineIndicesAt(quads);
  }

  /** A loaded descriptor whose elements do not have four nodes, or whose
      points have neither 2 nor 3 coordinates, builds nothing. */
  lemma BuildRejects(doc: Option<Document>, files: Files)
    requires LoadEffect(EmptyMesh, doc).0.None?
    ensures var mesh := LoadEffect(EmptyMesh, doc).1;
      mesh.topology.nodesPerElement != 4 ==> Build(doc, files) == (NotQuads, [], [], [])
    ensures var mesh := LoadEffect(EmptyMesh, doc).1;
      (mesh.topology.nodesPerElement == 4 && mesh.geometry.dim != 2 && mesh.geometry.dim != 3) ==>
        Build(doc, files) == (UnsupportedDim, [], [], [])
  {
  }

  /** The constructor's checks and reads after the loader has run: the early
      returns for a failed load, for elements that are not quads and for
      points that are neither 2D nor 3D, then the two dataset reads and the
      edge expansion. Its result is `Checked`. */
  method CheckAndRead(failure: Option<QuadError>, mesh: MeshData, files: Files)
    returns (status: BuildStatus, vertices: seq<real>, quadIndices: seq<uint64>, lineIndices: seq<uint32>)
    ensures (status, vertices, quadIndices, lineIndices) == Checked(failure, mesh, files)
  {
    vertices, quadIndices, lineIndices := [], [], [];
    if failure.Some? {
      return LoadFailed(failure.value), vertices, quadIndices, lineIndices;
    }
    if mesh.topology.nodesPerElement != 4 {
      return NotQuads, vertices, quadIndices, lineIndices;
    }
    var dim := mesh.geometry.dim;
    if dim != 2 && dim != 3 {
      return UnsupportedDim, vertices, quadIndices, lineIndices;
    }
    var points := ReadPoints(files, mesh.geometry.hdf5Path, mesh.geometry.numPoints * dim);
    if points.None? {
      return ReadAborted, vertices, quadIndices, lineIndices;
    }
    vertices := points.value;
    var quads := ReadIndices(files, mesh.topology.hdf5Path, mesh.topology.numElements * mesh.topology.nodesPerElement);
    if quads.None? {
      return ReadAborted, vertices, quadIndices, lineIndices;
    }
    quadIndices := quads.value;
    MultipleOfFour(mesh.topology.numElements);
    lineIndices := QuadToLineIndices(quadIndices);
    status := Built;
  }

  class Mesh {
    var loader: QuadMeshLoader
    var vertices: seq<real>
    var quadIndices: seq<uint64>
    var lineIndices: seq<uint32>
    /** How construction ended (the source only prints a message). */
    var status: BuildStatus

    /** `Mesh(xdmf_path)`: loads the descriptor, then checks, reads and
        expands. */
    constructor (doc: Option<Document>, files: Files)
      ensures fresh(loader) && loader.mesh == LoadEffect(EmptyMesh, doc).1
      ensures (status, vertices, quadIndices, lineIndices) == Build(doc, files)
    {
      var meshLoader := new QuadMeshLoader();
      var failure := meshLoader.Load(doc);
      loader := meshLoader;
      var built, points, quads, lines := CheckAndRead(failure, meshLoader.mesh, files);
      status, vertices, quadIndices, lineIndices := built, points, quads, lines;
    }
  }
}
