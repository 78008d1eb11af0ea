/** The uniform-quad loader of the 2.0.0 viewer (`src/main-2.0.0.cpp`, and
    the same class in `src/hdf5-class.cpp`): it reads the descriptor only,
    recording where the point and quad datasets live and their extents;
    the datasets themselves are read later by the mesh. */
module QuadLoader {
  import opened Common
  import opened Text
  import opened Xml

  /** `GeometryData`: locator, point count and coordinates per point. */
  datatype GeometryData = GeometryData(hdf5Path: string, numPoints: int, dim: int)

  /** `TopologyData`: locator, element count and nodes per element. */
  datatype TopologyData = TopologyData(hdf5Path: string, numElements: int, nodesPerElement: int)

  /** `MeshData`, the loader's only state. */
  datatype MeshData = MeshData(geometry: GeometryData, topology: TopologyData)

  /** The default-constructed `MeshData`: empty paths and zero counts. */
  const EmptyMesh := MeshData(GeometryData("", 0, 0), TopologyData("", 0, 0))

  /** Why `Load` returns false (or, for `TextBlank`, why `ParseDataItem`
      throws `std::out_of_range` out of `Load`). */
  datatype QuadError =
    | XmlLoadFailed
    | RootInvalid
    | GridMissing
    | GeometryMissing
    | DataItemMissing
    | FormatNotHdf
    | DimensionsMissing
    | TextMissing
    | TextBlank
    | TopologyMissing
    | TopologyDimsMismatch

  // --------------------------------------------------------- descriptors

  /** `sscanf(dims, "%d %d", &d0, &d1)`: each conversion that succeeds
      overwrites its variable; the first that fails stops the scan and leaves
      that variable and the next one as the caller set them. */
  function ScanDims(dims: string, d0: int, d1: int): (int, int) {
    match ScanInt(dims)
    case None => (d0, d1)
    case Some((first, rest)) =>
      match ScanInt(rest)
      case None => (first, d1)
      case Some((second, _)) => (first, second)
  }

  /** "a b" is read as (a, b); a lone "a" sets only the first extent and
      leaves the second as the caller set it; a string with no number leaves
      both. */
  lemma ScanDimsCases(a: nat, b: nat, d0: int, d1: int, blank: string)
    requires forall i :: 0 <= i < |blank| ==> IsSpace(blank[i])
    ensures ScanDims(Decimal(a) + " " + Decimal(b), d0, d1) == (a, b)
    ensures ScanDims(Decimal(a), d0, d1) == (a, d1)
    ensures ScanDims(blank, d0, d1) == (d0, d1)
  {
    ScanIntOfDecimal(a, " " + Decimal(b));
    assert Decimal(a) + " " + Decimal(b) == Decimal(a) + (" " + Decimal(b));
    ScanIntSkipsSpace(' ', Decimal(b));
    assert " " + Decimal(b) == [' '] + Decimal(b);
    ScanIntOfDecimal(b, "");
    assert Decimal(b) + "" == Decimal(b);
    ScanIntOfDecimal(a, "");
    assert Decimal(a) + "" == Decimal(a);
    ScanIntOfSpaces("");
    ScanIntOfSpaces(blank);
  }

  /** `ParseDataItem(item, out_path, out_dim0, out_dim1)` with the caller's
      extents d0, d1: the trimmed locator and the extents read from
      `Dimensions`. A null element, a `Format` other than `HDF`, a missing
      `Dimensions` and a missing text are rejected in that order; a text made
      only of " \t\r\n" makes the trim throw (`TextBlank`). */
  function ParseDataItem(item: Option<Element>, d0: int, d1: int): (r: Result<(string, int, int), QuadError>)
    ensures r.Ok? <==>
      && item.Some?
      && Attribute(item.value, "Format") == Some("HDF")
      && Attribute(item.value, "Dimensions").Some?
      && item.value.text.Some?
      && Trim(item.value.text.value).Some?
    ensures r.Ok? ==>
      && r.value.0 == Trim(item.value.text.value).value
      && (r.value.1, r.value.2) == ScanDims(Attribute(item.value, "Dimensions").value, d0, d1)
  {
    match item
    case None => Err(DataItemMissing)
    case Some(e) =>
      if Attribute(e, "Format") != Some("HDF") then Err(FormatNotHdf)
      else
        match Attribute(e, "Dimensions")
        case None => Err(DimensionsMissing)
        case Some(dims) =>
          var (dim0, dim1) := ScanDims(dims, d0, d1);
          match e.text
          case None => Err(TextMissing)
          case Some(text) =>
            match Trim(text)
            case None => Err(TextBlank)
            case Some(path) => Ok((path, dim0, dim1))
  }

  /** The order of the checks: the first one that fails names the error. */
  lemma ParseDataItemErrors(item: Option<Element>, d0: int, d1: int)
    ensures item.None? ==> ParseDataItem(item, d0, d1) == Err(DataItemMissing)
    ensures item.Some? ==>
      var e := item.value;
      && (Attribute(e, "Format") != Some("HDF") ==>
            ParseDataItem(item, d0, d1) == Err(FormatNotHdf))
      && ((Attribute(e, "Format") == Some("HDF") && Attribute(e, "Dimensions").None?) ==>
            ParseDataItem(item, d0, d1) == Err(DimensionsMissing))
      && ((Attribute(e, "Format") == Some("HDF") && Attribute(e, "Dimensions").Some? && e.text.None?) ==>
            ParseDataItem(item, d0, d1) == Err(TextMissing))
      && ((Attribute(e, "Format") == Some("HDF") && Attribute(e, "Dimensions").Some? && e.text.Some? &&
           AllTrimSpace(e.text.value)) ==>
            ParseDataItem(item, d0, d1) == Err(TextBlank))
  {
  }

  /** The locator of a parsed item is already trimmed: trimming it again
      changes nothing, and it keeps every character between the first and
      the last non-blank one of the text. */
  lemma ParseDataItemPathTrimmed(item: Option<Element>, d0: int, d1: int)
    requires ParseDataItem(item, d0, d1).Ok?
    ensures var path := ParseDataItem(item, d0, d1).value.0;
      Trim(path) == Some(path)
  {
    TrimIdempotent(item.value.text.value);
  }

  /** `QueryIntAttribute(key, &value)`: the attribute read as one `%d`
      number, or the caller's value when it is missing or not a number. */
  function IntAttribute(e: Element, key: string, value: int): (r: int)
    ensures Attribute(e, key).None? ==> r == value
  {
    match Attribute(e, key)
    case None => value
    case Some(s) =>
      match ScanInt(s)
      case None => value
      case Some((v, _)) => v
  }

  /** A written count is read back; a missing or non-numeric one leaves 0. */
  lemma IntAttributeOfDecimal(e: Element, key: string, n: nat)
    requires Attribute(e, key) == Some(Decimal(n))
    ensures IntAttribute(e, key, 0) == n
  {
    ScanIntOfDecimal(n, "");
    assert Decimal(n) + "" == Decimal(n);
  }

  // ---------------------------------------------------------------- load

  /** `root->FirstChildElement("Domain")->FirstChildElement("Grid")` behind
      the root-name check. */
  function QuadGrid(doc: Option<Document>): (r: Result<Element, QuadError>)
    ensures doc.None? ==> r == Err(XmlLoadFailed)
    ensures doc.Some? && (doc.value.root.None? || doc.value.root.value.name != "Xdmf") ==> r == Err(RootInvalid)
    ensures r.Ok? ==> doc.Some? && doc.value.root.Some? && doc.value.root.value.name == "Xdmf"
    ensures doc.Some? && doc.value.root.Some? && doc.value.root.value.name == "Xdmf" ==>
      var domain := FirstChildElement(doc.value.root.value, "Domain");
      && (domain.None? || FirstChildElement(domain.value, "Grid").None? ==> r == Err(GridMissing))
      && (domain.Some? && FirstChildElement(domain.value, "Grid").Some? ==>
            r == Ok(FirstChildElement(domain.value, "Grid").value))
    ensures r.Ok? ==> r.value.name == "Grid"
  {
    match doc
    case None => Err(XmlLoadFailed)
    case Some(Document(root)) =>
      if root.None? || root.value.name != "Xdmf" then Err(RootInvalid)
      else
        match FirstChildElement(root.value, "Domain")
        case None => Err(GridMissing)
        case Some(domain) =>
          match FirstChildElement(domain, "Grid")
          case None => Err(GridMissing)
          case Some(grid) => Ok(grid)
  }

  /** The topology element of the grid and its first `DataItem`, when both
      are present. */
  function TopologyItems(grid: Element): Option<(Element, Element)> {
    match FirstChildElement(grid, "Topology")
    case None => None
    case Some(topology) =>
      match FirstChildElement(topology, "DataItem")
      case None => None
      case Some(item) => Some((topology, item))
  }

  /** The failure and the new `mesh` after `Load`. The geometry record is
      stored as soon as its data item parses, before the topology is looked
      at; the topology record is stored last, only when everything passed.
      This is the specification of the method `QuadMeshLoader.Load`. */
  function LoadEffect(mesh: MeshData, doc: Option<Document>): (Option<QuadError>, MeshData) {
    match QuadGrid(doc)
    case Err(e) => (Some(e), mesh)
    case Ok(grid) =>
      match FirstChildElement(grid, "Geometry")
      case None => (Some(GeometryMissing), mesh)
      case Some(geometry) =>
        match ParseDataItem(FirstChildElement(geometry, "DataItem"), 0, 0)
        case Err(e) => (Some(e), mesh)
        case Ok((geomPath, geomD0, geomD1)) =>
          var withGeometry := mesh.(geometry := GeometryData(geomPath, geomD0, geomD1));
          match TopologyItems(grid)
          case None => (Some(TopologyMissing), withGeometry)
          case Some((topology, item)) =>
            var numElements := IntAttribute(topology, "NumberOfElements", 0);
            var nodesPerElement := IntAttribute(topology, "NodesPerElement", 0);
            match ParseDataItem(Some(item), 0, 0)
            case Err(e) => (Some(e), withGeometry)
            case Ok((topoPath, topoD0, topoD1)) =>
              if topoD0 != numElements || topoD1 != nodesPerElement then
                (Some(TopologyDimsMismatch), withGeometry)
              else
                (None, withGeometry.(topology := TopologyData(topoPath, numElements, nodesPerElement)))
  }

  /** A successful load found an `Xdmf` root with a grid, a geometry item and
      a topology item; the stored geometry is what the geometry item says;
      the stored topology counts are the element's attributes, and the
      topology item's extents equal them. */
  lemma LoadEffectOnSuccess(mesh: MeshData, doc: Option<Document>)
    requires LoadEffect(mesh, doc).0.None?
    ensures doc.Some? && doc.value.root.Some? && doc.value.root.value.name == "Xdmf"
    ensures QuadGrid(doc).Ok?
    ensures var grid := QuadGrid(doc).value;
      var after := LoadEffect(mesh, doc).1;
      && FirstChildElement(grid, "Geometry").Some?
      && ParseDataItem(FirstChildElement(FirstChildElement(grid, "Geometry").value, "DataItem"), 0, 0)
           == Ok((after.geometry.hdf5Path, after.geometry.numPoints, after.geometry.dim))
      && TopologyItems(grid).Some?
      && var (topology, item) := TopologyItems(grid).value;
         && after.topology.numElements == IntAttribute(topology, "NumberOfElements", 0)
         && after.topology.nodesPerElement == IntAttribute(topology, "NodesPerElement", 0)
         && ParseDataItem(Some(item), 0, 0)
              == Ok((after.topology.hdf5Path, after.topology.numElements, after.topology.nodesPerElement))
  {
    var grid := QuadGrid(doc).value;
    var geometry := FirstChildElement(grid, "Geometry").value;
    assert ParseDataItem(FirstChildElement(geometry, "DataItem"), 0, 0).Ok?;
    var (topology, item) := TopologyItems(grid).value;
    assert ParseDataItem(Some(item), 0, 0).Ok?;
  }

  /** A failed load never stores a topology record, and it stores the
      geometry record exactly when the geometry item parsed: a topology
      failure leaves the new geometry beside the old topology. */
  lemma LoadEffectOnFailure(mesh: MeshData, doc: Option<Document>)
    requires LoadEffect(mesh, doc).0.Some?
    ensures LoadEffect(mesh, doc).1.topology == mesh.topology
    ensures var after := LoadEffect(mesh, doc).1;
      after.geometry == mesh.geometry ||
      (&& QuadGrid(doc).Ok?
       && FirstChildElement(QuadGrid(doc).value, "Geometry").Some?
       && ParseDataItem(FirstChildElement(FirstChildElement(QuadGrid(doc).value, "Geometry").value, "DataItem"), 0, 0)
            == Ok((after.geometry.hdf5Path, after.geometry.numPoints, after.geometry.dim)))
  {
    if QuadGrid(doc).Ok? {
      var grid := QuadGrid(doc).value;
      if FirstChildElement(grid, "Geometry").Some? {
        var geometry := FirstChildElement(grid, "Geometry").value;
        var parsed := ParseDataItem(FirstChildElement(geometry, "DataItem"), 0, 0);
        if parsed.Ok? {
          var (geomPath, geomD0, geomD1) := parsed.value;
          var withGeometry := mesh.(geometry := GeometryData(geomPath, geomD0, geomD1));
          assert LoadEffect(mesh, doc).1 == withGeometry;
        }
      }
    }
  }

  /** The topology item's extents must match `NumberOfElements` and
      `NodesPerElement`: a mismatch fails with the geometry already stored. */
  lemma LoadRejectsDimsMismatch(mesh: MeshData, doc: Option<Document>)
    requires QuadGrid(doc).Ok?
    requires var grid := QuadGrid(doc).value;
      && FirstChildElement(grid, "Geometry").Some?
      && ParseDataItem(FirstChildElement(FirstChildElement(grid, "Geometry").value, "DataItem"), 0, 0).Ok?
      && TopologyItems(grid).Some?
      && var (topology, item) := TopologyItems(grid).value;
         && ParseDataItem(Some(item), 0, 0).Ok?
         && var (_, d0, d1) := ParseDataItem(Some(item), 0, 0).value;
            (d0 != IntAttribute(topology, "NumberOfElements", 0) ||
             d1 != IntAttribute(topology, "NodesPerElement", 0))
    ensures LoadEffect(mesh, doc).0 == Some(TopologyDimsMismatch)
    ensures LoadEffect(mesh, doc).1.topology == mesh.topology
  {
  }

  /** The root must be named `Xdmf`: any other root fails before anything
      is stored. */
  lemma LoadRejectsOtherRoot(mesh: MeshData, root: Element)
    requires root.name != "Xdmf"
    ensures LoadEffect(mesh, Some(Document(Some(root)))) == (Some(RootInvalid), mesh)
  {
  }

  /** The loader; `mesh` is its only state. */
  class QuadMeshLoader {
    var mesh: MeshData

    constructor ()
      ensures mesh == EmptyMesh
    {
      mesh := EmptyMesh;
    }

    /** `Load`: walks the descriptor, storing the geometry record and then
        the topology record; returns the failure, None for true. Its effect
        is `LoadEffect`. */
    method Load(doc: Option<Document>) returns (failure: Option<QuadError>)
      modifies this`mesh
      ensures (failure, mesh) == LoadEffect(old(mesh), doc)
    {
      var grid := QuadGrid(doc);
      if grid.Err? {
        return Some(grid.error);
      }
      var geometry := FirstChildElement(grid.value, "Geometry");
      if geometry.None? {
        return Some(GeometryMissing);
      }
      var geomItem := ParseDataItem(FirstChildElement(geometry.value, "DataItem"), 0, 0);
      if geomItem.Err? {
        return Some(geomItem.error);
      }
      var (geomPath, geomD0, geomD1) := geomItem.value;
      mesh := mesh.(geometry := GeometryData(geomPath, geomD0, geomD1));

      var topologyItems := TopologyItems(grid.value);
      if topologyItems.None? {
        return Some(TopologyMissing);
      }
      var (topology, item) := topologyItems.value;
      var numElements := IntAttribute(topology, "NumberOfElements", 0);
      var nodesPerElement := IntAttribute(topology, "NodesPerElement", 0);
      var topoItem := ParseDataItem(Some(item), 0, 0);
      if topoItem.Err? {
        return Some(topoItem.error);
      }
      var (topoPath, topoD0, topoD1) := topoItem.value;
      if topoD0 != numElements || topoD1 != nodesPerElement {
        return Some(TopologyDimsMismatch);
      }
      mesh := mesh.(topology := TopologyData(topoPath, numElements, nodesPerElement));
      failure := None;
    }
  }
}
