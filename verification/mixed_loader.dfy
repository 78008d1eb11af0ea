/** The XDMF loader for Mixed topologies (`XdmfMeshLoader`): it walks the
    XML descriptor down to the geometry and topology data items, reads the
    point array and the flat topology array from HDF5, and decodes the
    topology into cells. The HDF5 files are a parameter: a map from file name
    to dataset name to dataset. */
module MixedLoader {
  import opened Common
  import opened Text
  import opened Locator
  import opened Xml
  import opened CellTypes
  import opened MixedTopology

  /** The exceptions the loader throws, one per message. */
  datatype LoadError =
    | XmlLoadFailed
    | RootMissing
    | DomainMissing
    | GridMissing
    | GeometryMissing
    | GeometryDataItemMissing
    | DimensionsMissing
    | DimensionNotNumeric(token: string)
    | DimensionOutOfRange(token: string)
    | FormatNotHdf
    | TextMissing
    | LocatorWithoutColon
    | GeometryDimsInvalid
    | GeometryPathInvalid
    | GeometryFileOpenFailed
    | GeometryDatasetOpenFailed
    | GeometryReadFailed
    | TopologyMissing
    | NotMixed
    | TopologyDataItemMissing
    | TopologyPathInvalid
    | TopologyFileOpenFailed
    | TopologyDatasetOpenFailed
    | TopologyNot1D
    | TopologyReadFailed
    | UnknownElementType(code: int)
    | TopologyCorrupted

  // ------------------------------------------------------------ data items

  /** `std::stoull` of one token, for tokens that are decimal numerals. */
  function ParseDimension(token: string): (r: Result<uint64, LoadError>)
    ensures r.Ok? <==> IsNumeral(token) && DigitsValue(token) < TWO_TO_64
    ensures r.Ok? ==> r.value == DigitsValue(token)
  {
    if !IsNumeral(token) then Err(DimensionNotNumeric(token))
    else if DigitsValue(token) >= TWO_TO_64 then Err(DimensionOutOfRange(token))
    else Ok(DigitsValue(token))
  }

  /** The extents of a `Dimensions` attribute, token by token; the first
      token `stoull` rejects ends the parse. */
  function ParseExtents(tokens: seq<string>): (r: Result<seq<uint64>, LoadError>)
    ensures r.Ok? <==> forall j :: 0 <= j < |tokens| ==> ParseDimension(tokens[j]).Ok?
    ensures r.Ok? ==> |r.value| == |tokens|
    ensures r.Ok? ==> forall j :: 0 <= j < |tokens| ==> r.value[j] == DigitsValue(tokens[j])
    ensures r.Err? ==> exists j :: 0 <= j < |tokens| && ParseDimension(tokens[j]) == Err(r.error) &&
                                   forall k :: 0 <= k < j ==> ParseDimension(tokens[k]).Ok?
  {
    if |tokens| == 0 then Ok([])
    else
      match ParseDimension(tokens[0])
      case Err(e) => Err(e)
      case Ok(d) =>
        match ParseExtents(tokens[1..])
        case Err(e) =>
          assert forall j :: 1 <= j < |tokens| ==> tokens[j] == tokens[1..][j - 1];
          var j :| 0 <= j < |tokens[1..]| && ParseDimension(tokens[1..][j]) == Err(e) &&
                   forall k :: 0 <= k < j ==> ParseDimension(tokens[1..][k]).Ok?;
          assert ParseDimension(tokens[j + 1]) == Err(e);
          assert forall k :: 0 <= k < j + 1 ==> ParseDimension(tokens[k]).Ok?;
          Err(e)
        case Ok(ds) =>
          assert forall j :: 1 <= j < |tokens| ==> tokens[j] == tokens[1..][j - 1];
          Ok([d] + ds)
  }

  /** `ParseDataItem`: the extents of `Dimensions`, then the `HDF` format
      check, then the text, which must hold a colon. On success the path is
      the text split at its first colon and joined again, that is, the text
      itself. */
  function ParseDataItem(item: Element): (r: Result<(string, seq<uint64>), LoadError>)
    ensures r.Ok? ==>
      && Attribute(item, "Format") == Some("HDF")
      && item.text == Some(r.value.0)
      && ParseHDF5Path(r.value.0).Some?
      && Attribute(item, "Dimensions").Some?
      && ParseExtents(Tokens(Attribute(item, "Dimensions").value)) == Ok(r.value.1)
    ensures r.Ok? <==>
      && Attribute(item, "Dimensions").Some?
      && ParseExtents(Tokens(Attribute(item, "Dimensions").value)).Ok?
      && Attribute(item, "Format") == Some("HDF")
      && item.text.Some? && ':' in item.text.value
    ensures Attribute(item, "Dimensions").None? ==> r == Err(DimensionsMissing)
  {
    match Attribute(item, "Dimensions")
    case None => Err(DimensionsMissing)
    case Some(dimsText) =>
      match ParseExtents(Tokens(dimsText))
      case Err(e) => Err(e)
      case Ok(dims) =>
        if Attribute(item, "Format") != Some("HDF") then Err(FormatNotHdf)
        else
          match item.text
          case None => Err(TextMissing)
          case Some(text) =>
            match ParseHDF5Path(text)
            case None => Err(LocatorWithoutColon)
            case Some((file, dataset)) => Ok((file + ":" + dataset, dims))
  }

  /** A data item written the way the mesh files write it, `Dimensions="n 3"`,
      `Format="HDF"` and `file:dataset` as text, parses to that path and to
      the extents [n, 3]. */
  lemma ParseDataItemOfDescriptor(n: nat, file: string, dataset: string, item: Element)
    requires n < TWO_TO_64 && ':' !in file
    requires Attribute(item, "Dimensions") == Some(Decimal(n) + " " + "3")
    requires Attribute(item, "Format") == Some("HDF")
    requires item.text == Some(file + ":" + dataset)
    ensures ParseDataItem(item) == Ok((file + ":" + dataset, [n, 3]))
    ensures ParseHDF5Path(ParseDataItem(item).value.0) == Some((file, dataset))
  {
    var ts := [Decimal(n), "3"];
    assert JoinSpaced(ts) == Decimal(n) + " " + "3" by {
      assert ts[1..] == ["3"];
    }
    TokensOfJoin(ts);
    DigitsValueOfDecimal(n);
    assert DigitsValue("3") == 3 by {
      assert "3"[..0] == "";
    }
    assert IsNumeral("3");
    assert ParseDimension(ts[0]).Ok? && ParseDimension(ts[1]).Ok?;
    var r := ParseExtents(ts);
    assert r.Ok? && |r.value| == 2 && r.value[0] == n && r.value[1] == 3;
    assert r.value == [n, 3];
    SplitIsFirstColon(file, dataset);
  }

  /** The checks of `ParseDataItem` run in a fixed order, and the first one
      that fails names the error: a missing `Dimensions`, then the first
      extent that does not parse, then a format other than `HDF`, then a
      missing text, then a text without a colon. */
  lemma ParseDataItemErrors(item: Element)
    ensures Attribute(item, "Dimensions").None? ==> ParseDataItem(item) == Err(DimensionsMissing)
    ensures Attribute(item, "Dimensions").Some? ==>
      var extents := ParseExtents(Tokens(Attribute(item, "Dimensions").value));
      && (extents.Err? ==> ParseDataItem(item) == Err(extents.error))
      && ((extents.Ok? && Attribute(item, "Format") != Some("HDF")) ==>
            ParseDataItem(item) == Err(FormatNotHdf))
      && ((extents.Ok? && Attribute(item, "Format") == Some("HDF") && item.text.None?) ==>
            ParseDataItem(item) == Err(TextMissing))
      && ((extents.Ok? && Attribute(item, "Format") == Some("HDF") && item.text.Some? &&
           ':' !in item.text.value) ==>
            ParseDataItem(item) == Err(LocatorWithoutColon))
  {
  }

  // ----------------------------------------------------------- HDF5 store

  /** A dataset: its extents and its values in row-major order. */
  datatype Dataset =
    | Floats(dims: seq<nat>, reals: seq<real>)
    | Int64s(dims: seq<nat>, ints: seq<int64>)

  type Store = map<string, map<string, Dataset>>

  /** `H5Fopen` then `H5Dopen` on the two halves of a path. */
  function OpenDataset(store: Store, hdf5Path: string,
                       pathError: LoadError, fileError: LoadError, datasetError: LoadError)
    : (r: Result<Dataset, LoadError>)
    ensures ParseHDF5Path(hdf5Path).None? ==> r == Err(pathError)
    ensures r.Ok? ==>
      var (file, dataset) := ParseHDF5Path(hdf5Path).value;
      file in store && dataset in store[file] && r.value == store[file][dataset]
  {
    match ParseHDF5Path(hdf5Path)
    case None => Err(pathError)
    case Some((file, dataset)) =>
      if file !in store then Err(fileError)
      else if dataset !in store[file] then Err(datasetError)
      else Ok(store[file][dataset])
  }

  /** The values of a dataset read as `double`. */
  function RealValues(d: Dataset): seq<real> {
    match d
    case Floats(_, reals) => reals
    case Int64s(_, ints) => seq(|ints|, j requires 0 <= j < |ints| => ints[j] as real)
  }

  /** Rows of three coordinates read as points. */
  function Points(values: seq<real>): (ps: seq<Point3>)
    requires |values| % 3 == 0
    ensures |ps| == |values| / 3
    ensures forall i :: 0 <= i < |ps| ==>
      ps[i] == Point3(values[3 * i], values[3 * i + 1], values[3 * i + 2])
  {
    seq(|values| / 3, i requires 0 <= i < |values| / 3 =>
      Point3(values[3 * i], values[3 * i + 1], values[3 * i + 2]))
  }

  /** Points written out as rows of three coordinates. */
  function Flatten(ps: seq<Point3>): (values: seq<real>)
    ensures |values| == 3 * |ps|
  {
    if |ps| == 0 then [] else [ps[0].x, ps[0].y, ps[0].z] + Flatten(ps[1..])
  }

  /** Reading rows as points and writing them out again loses nothing. */
  lemma {:induction false} FlattenPoints(values: seq<real>)
    requires |values| % 3 == 0
    ensures Flatten(Points(values)) == values
    decreases |values|
  {
    if |values| > 0 {
      var ps := Points(values);
      var tail := values[3..];
      assert Points(tail) == ps[1..];
      FlattenPoints(tail);
      assert values == [values[0], values[1], values[2]] + tail;
    }
  }

  /** `std::vector::resize`: keeps the first n points, and pads with the
      origin up to n. */
  function Resize(ps: seq<Point3>, n: nat): (r: seq<Point3>)
    ensures |r| == n
    ensures forall i :: 0 <= i < n && i < |ps| ==> r[i] == ps[i]
    ensures forall i :: |ps| <= i < n ==> r[i] == Origin
  {
    if n <= |ps| then ps[..n] else ps + seq(n - |ps|, _ => Origin)
  }

  /** The failure and the point array after `LoadGeometry`: nothing changes
      when the path or the open fails; the array is resized before the read,
      so a read of the wrong size leaves it resized; a read of n rows
      replaces it. This is the specification of the method
      `XdmfMeshLoader.LoadGeometry`. */
  function GeometryOutcome(before: seq<Point3>, store: Store, hdf5Path: string, numPoints: uint64)
    : (Option<LoadError>, seq<Point3>)
  {
    match OpenDataset(store, hdf5Path,
                      GeometryPathInvalid, GeometryFileOpenFailed, GeometryDatasetOpenFailed)
    case Err(e) => (Some(e), before)
    case Ok(d) =>
      var values := RealValues(d);
      if |values| == 3 * numPoints then (None, Points(values))
      else (Some(GeometryReadFailed), Resize(before, numPoints))
  }

  /** A geometry load either fails, or yields exactly numPoints points whose
      coordinates are the dataset's values in order. */
  lemma GeometryOutcomeRows(before: seq<Point3>, store: Store, hdf5Path: string, numPoints: uint64)
    ensures var (failure, after) := GeometryOutcome(before, store, hdf5Path, numPoints);
      (failure.None? || failure.value.GeometryReadFailed? ==> |after| == numPoints) &&
      (failure.None? ==>
        var d := OpenDataset(store, hdf5Path,
                             GeometryPathInvalid, GeometryFileOpenFailed, GeometryDatasetOpenFailed);
        d.Ok? && Flatten(after) == RealValues(d.value))
    ensures ParseHDF5Path(hdf5Path).None? ==>
      GeometryOutcome(before, store, hdf5Path, numPoints) == (Some(GeometryPathInvalid), before)
  {
    var d := OpenDataset(store, hdf5Path,
                         GeometryPathInvalid, GeometryFileOpenFailed, GeometryDatasetOpenFailed);
    if d.Ok? && |RealValues(d.value)| == 3 * numPoints {
      FlattenPoints(RealValues(d.value));
    }
  }

  /** The `int64_t` array of the topology dataset, which must be 1-D. */
  function ReadTopology(store: Store, hdf5Path: string): (r: Result<seq<int64>, LoadError>)
    ensures r.Ok? ==>
      var d := OpenDataset(store, hdf5Path,
                           TopologyPathInvalid, TopologyFileOpenFailed, TopologyDatasetOpenFailed);
      d.Ok? && |d.value.dims| == 1 && d.value == Int64s(d.value.dims, r.value)
  {
    match OpenDataset(store, hdf5Path,
                      TopologyPathInvalid, TopologyFileOpenFailed, TopologyDatasetOpenFailed)
    case Err(e) => Err(e)
    case Ok(d) =>
      if |d.dims| != 1 then Err(TopologyNot1D)
      else if d.Floats? then Err(TopologyReadFailed)
      else Ok(d.ints)
  }

  /** The exception that ends decoding, if any. */
  function StatusFailure(s: Status): (r: Option<LoadError>)
    ensures r.None? <==> s.Complete?
  {
    match s
    case Complete => None
    case UnknownType(code, _) => Some(UnknownElementType(code))
    case Truncated(_) => Some(TopologyCorrupted)
  }

  /** The failure and the cell list after `LoadMixedTopology`: nothing
      changes when the read fails; otherwise the list is cleared and holds
      every cell decoded before decoding ended, also when it ended in an
      exception. This is the specification of the method
      `XdmfMeshLoader.LoadMixedTopology`. */
  function TopologyOutcome(before: seq<Cell>, store: Store, hdf5Path: string)
    : (Option<LoadError>, seq<Cell>)
  {
    match ReadTopology(store, hdf5Path)
    case Err(e) => (Some(e), before)
    case Ok(raw) =>
      var d := Decode(raw);
      (StatusFailure(d.status), d.cells)
  }

  /** What a topology load leaves: after a clean load the cells re-encode the
      whole dataset (when every tag lies in 0..255 and every id is
      non-negative); after a decoding error they are exactly the decoding of
      the dataset up to the failing record. */
  lemma TopologyOutcomeCells(before: seq<Cell>, store: Store, hdf5Path: string)
    requires ReadTopology(store, hdf5Path).Ok?
    ensures var raw := ReadTopology(store, hdf5Path).value;
      var (failure, cells) := TopologyOutcome(before, store, hdf5Path);
      && (forall c :: c in cells ==> WellFormed(c))
      && ((failure.None? && (forall j :: 0 <= j < |raw| ==> 0 <= raw[j]) && TagsFit(raw, cells))
            ==> Encode(cells) == raw)
      && (failure.Some? ==>
            |Encode(cells)| < |raw| && Decode(raw[..|Encode(cells)|]) == Decoded(cells, Complete))
  {
    var raw := ReadTopology(store, hdf5Path).value;
    var d := Decode(raw);
    DecodeWellFormed(raw, 0);
    if d.status.Complete? {
      if (forall j :: 0 <= j < |raw| ==> 0 <= raw[j]) && TagsFit(raw, d.cells) {
        EncodeDecode(raw, 0);
      }
    } else {
      DecodePrefixOnError(raw, 0);
    }
  }

  /** The cell list is cleared before decoding: once the dataset is read, the
      cells left do not depend on the cells held before, and an empty
      dataset leaves no cells and no failure. */
  lemma TopologyOutcomeClears(before: seq<Cell>, other: seq<Cell>, store: Store, hdf5Path: string)
    requires ReadTopology(store, hdf5Path).Ok?
    ensures TopologyOutcome(before, store, hdf5Path) == TopologyOutcome(other, store, hdf5Path)
    ensures ReadTopology(store, hdf5Path).value == [] ==> TopologyOutcome(before, store, hdf5Path) == (None, [])
  {
  }

  /** One step of the decoder, stated at position i of the whole array. */
  lemma DecodeRecordAt(raw: seq<int>, i: nat, k: int)
    requires i < |raw| && k == NodeCount(AsUint8(raw[i]))
    ensures k <= 0 ==> DecodeAt(raw[i..], i) == Decoded([], UnknownType(AsInt32(raw[i]), i))
    ensures 0 < k && i + k >= |raw| ==> DecodeAt(raw[i..], i) == Decoded([], Truncated(i))
    ensures 0 < k && i + k < |raw| ==>
      var later := DecodeAt(raw[i + 1 + k..], i + 1 + k);
      DecodeAt(raw[i..], i) ==
        Decoded([Cell(AsUint8(raw[i]), Conn(raw[i + 1..i + 1 + k]))] + later.cells, later.status)
  {
    var rest := raw[i..];
    assert rest[0] == raw[i];
    DecodeAtStep(rest, i, k);
    if 0 < k && i + k < |raw| {
      assert rest[1..1 + k] == raw[i + 1..i + 1 + k];
      assert rest[1 + k..] == raw[i + 1 + k..];
    }
  }

  // ------------------------------------------------------ descriptor walk

  /** The `Grid` element of a document: the first `Grid` child of the first
      `Domain` child of the root, whatever the root is named. Each missing
      link has its own error. */
  function FindGrid(doc: Option<Document>): (r: Result<Element, LoadError>)
    ensures doc.None? ==> r == Err(XmlLoadFailed)
    ensures doc.Some? && doc.value.root.None? ==> r == Err(RootMissing)
    ensures doc.Some? && doc.value.root.Some? ==>
      var domain := FirstChildElement(doc.value.root.value, "Domain");
      && (domain.None? ==> r == Err(DomainMissing))
      && (domain.Some? && FirstChildElement(domain.value, "Grid").None? ==> r == Err(GridMissing))
      && (domain.Some? && FirstChildElement(domain.value, "Grid").Some? ==>
            r == Ok(FirstChildElement(domain.value, "Grid").value))
    ensures r.Ok? ==> r.value.name == "Grid"
  {
    match doc
    case None => Err(XmlLoadFailed)
    case Some(Document(root)) =>
      match root
      case None => Err(RootMissing)
      case Some(xdmf) =>
        match FirstChildElement(xdmf, "Domain")
        case None => Err(DomainMissing)
        case Some(domain) =>
          match FirstChildElement(domain, "Grid")
          case None => Err(GridMissing)
          case Some(grid) => Ok(grid)
  }

  /** The geometry path and point count: the first `Geometry` child of the
      grid, its first `DataItem`, whose extents must be exactly [n, 3]. */
  function GeometrySource(grid: Element): (r: Result<(string, uint64), LoadError>)
    ensures FirstChildElement(grid, "Geometry").None? ==> r == Err(GeometryMissing)
    ensures FirstChildElement(grid, "Geometry").Some? ==>
      var item := FirstChildElement(FirstChildElement(grid, "Geometry").value, "DataItem");
      && (item.None? ==> r == Err(GeometryDataItemMissing))
      && (item.Some? && ParseDataItem(item.value).Err? ==> r == Err(ParseDataItem(item.value).error))
      && (item.Some? && ParseDataItem(item.value).Ok? ==>
            var dims := ParseDataItem(item.value).value.1;
            && (r.Ok? <==> |dims| == 2 && dims[1] == 3)
            && (r.Err? ==> r.error == GeometryDimsInvalid)
            && (r.Ok? ==> ParseDataItem(item.value).value == (r.value.0, [r.value.1, 3])))
    ensures r.Ok? ==> ParseHDF5Path(r.value.0).Some?
  {
    match FirstChildElement(grid, "Geometry")
    case None => Err(GeometryMissing)
    case Some(geometry) =>
      match FirstChildElement(geometry, "DataItem")
      case None => Err(GeometryDataItemMissing)
      case Some(item) =>
        match ParseDataItem(item)
        case Err(e) => Err(e)
        case Ok((path, dims)) =>
          if |dims| != 2 || dims[1] != 3 then Err(GeometryDimsInvalid)
          else
            assert dims == [dims[0], 3];
            Ok((path, dims[0]))
  }

  /** The topology path: the first `Topology` child of the grid, whose
      `TopologyType` must be `Mixed`, and its first `DataItem`. The data
      item's extents are parsed (and may fail) but not used. */
  function TopologySource(grid: Element): (r: Result<string, LoadError>)
    ensures FirstChildElement(grid, "Topology").None? ==> r == Err(TopologyMissing)
    ensures FirstChildElement(grid, "Topology").Some? ==>
      var topology := FirstChildElement(grid, "Topology").value;
      var item := FirstChildElement(topology, "DataItem");
      && (Attribute(topology, "TopologyType") != Some("Mixed") ==> r == Err(NotMixed))
      && (Attribute(topology, "TopologyType") == Some("Mixed") ==>
            && (item.None? ==> r == Err(TopologyDataItemMissing))
            && (item.Some? ==> (r.Ok? <==> ParseDataItem(item.value).Ok?))
            && (item.Some? && ParseDataItem(item.value).Err? ==> r == Err(ParseDataItem(item.value).error))
            && (item.Some? && ParseDataItem(item.value).Ok? ==> r.value == ParseDataItem(item.value).value.0))
    ensures r.Ok? ==> ParseHDF5Path(r.value).Some?
  {
    match FirstChildElement(grid, "Topology")
    case None => Err(TopologyMissing)
    case Some(topology) =>
      if Attribute(topology, "TopologyType") != Some("Mixed") then Err(NotMixed)
      else
        match FirstChildElement(topology, "DataItem")
        case None => Err(TopologyDataItemMissing)
        case Some(item) =>
          match ParseDataItem(item)
          case Err(e) => Err(e)
          case Ok((path, _)) => Ok(path)
  }

  /** The failure and the new state after `Load`. Each stage runs only when
      the one before it succeeded, and each stage's changes stay in place
      when a later stage fails. This is the specification of the method
      `XdmfMeshLoader.Load`. */
  function LoadOutcome(geometry: seq<Point3>, cells: seq<Cell>, doc: Option<Document>, store: Store)
    : (Option<LoadError>, seq<Point3>, seq<Cell>)
  {
    match FindGrid(doc)
    case Err(e) => (Some(e), geometry, cells)
    case Ok(grid) =>
      match GeometrySource(grid)
      case Err(e) => (Some(e), geometry, cells)
      case Ok((geomPath, numPoints)) =>
        var (geomFailure, points) := GeometryOutcome(geometry, store, geomPath, numPoints);
        if geomFailure.Some? then (geomFailure, points, cells)
        else
          match TopologySource(grid)
          case Err(e) => (Some(e), points, cells)
          case Ok(topoPath) =>
            var (topoFailure, decoded) := TopologyOutcome(cells, store, topoPath);
            (topoFailure, points, decoded)
  }

  /** A load that succeeds read the point count from a [n, 3] geometry item
      and n rows from its dataset, and decoded the whole topology dataset
      into well-formed cells. */
  lemma LoadOutcomeOnSuccess(geometry: seq<Point3>, cells: seq<Cell>, doc: Option<Document>, store: Store)
    requires LoadOutcome(geometry, cells, doc, store).0.None?
    ensures FindGrid(doc).Ok?
    ensures var grid := FindGrid(doc).value;
      var (_, points, decoded) := LoadOutcome(geometry, cells, doc, store);
      && GeometrySource(grid).Ok?
      && |points| == GeometrySource(grid).value.1
      && TopologySource(grid).Ok?
      && ReadTopology(store, TopologySource(grid).value).Ok?
      && Decode(ReadTopology(store, TopologySource(grid).value).value) == Decoded(decoded, Complete)
      && (forall c :: c in decoded ==> WellFormed(c))
  {
    var outcome := LoadOutcome(geometry, cells, doc, store);
    assert FindGrid(doc).Ok?;
    var grid := FindGrid(doc).value;
    assert GeometrySource(grid).Ok?;
    var (geomPath, numPoints) := GeometrySource(grid).value;
    var (geomFailure, points) := GeometryOutcome(geometry, store, geomPath, numPoints);
    assert geomFailure.None?;
    assert TopologySource(grid).Ok?;
    var topoPath := TopologySource(grid).value;
    var (topoFailure, decoded) := TopologyOutcome(cells, store, topoPath);
    assert outcome == (topoFailure, points, decoded);
    assert ReadTopology(store, topoPath).Ok?;
    var raw := ReadTopology(store, topoPath).value;
    assert Decode(raw) == Decoded(decoded, Complete);
    GeometryOutcomeRows(geometry, store, geomPath, numPoints);
    DecodeWellFormed(raw, 0);
  }

  /** A load that fails in the descriptor before the geometry is read
      changes nothing. */
  lemma LoadOutcomeBeforeGeometry(geometry: seq<Point3>, cells: seq<Cell>, doc: Option<Document>, store: Store)
    requires FindGrid(doc).Err? || GeometrySource(FindGrid(doc).value).Err?
    ensures LoadOutcome(geometry, cells, doc, store).1 == geometry
    ensures LoadOutcome(geometry, cells, doc, store).2 == cells
    ensures LoadOutcome(geometry, cells, doc, store).0 ==
      Some(if FindGrid(doc).Err? then FindGrid(doc).error else GeometrySource(FindGrid(doc).value).error)
  {
  }

  /** A load whose topology element is missing or malformed keeps the points
      it has just read: there is no rollback. */
  lemma LoadOutcomeKeepsGeometry(geometry: seq<Point3>, cells: seq<Cell>, doc: Option<Document>, store: Store)
    requires FindGrid(doc).Ok? && GeometrySource(FindGrid(doc).value).Ok?
    requires TopologySource(FindGrid(doc).value).Err?
    ensures var (geomPath, numPoints) := GeometrySource(FindGrid(doc).value).value;
      var (geomFailure, points) := GeometryOutcome(geometry, store, geomPath, numPoints);
      LoadOutcome(geometry, cells, doc, store) ==
        (Some(if geomFailure.Some? then geomFailure.value
              else TopologySource(FindGrid(doc).value).error), points, cells)
  {
  }

  // --------------------------------------------------------------- loader

  /** The inner loop of the decoder: copies the `count` values after the
      tag, each converted to `uint64_t`, into the cell's id list. */
  method CopyIds(raw: seq<int>, start: nat, count: nat) returns (conn: seq<uint64>)
    requires start + count <= |raw|
    ensures |conn| == count
    ensures forall t :: 0 <= t < count ==> conn[t] == AsUint64(raw[start + t])
    ensures conn == Conn(raw[start..start + count])
  {
    conn := [];
    for j := 0 to count
      invariant |conn| == j
      invariant forall t :: 0 <= t < j ==> conn[t] == AsUint64(raw[start + t])
    {
      conn := conn + [AsUint64(raw[start + j])];
    }
  }

  class XdmfMeshLoader {
    var geometry: seq<Point3>
    var mixedTopology: seq<Cell>

    constructor ()
      ensures geometry == [] && mixedTopology == []
    {
      geometry := [];
      mixedTopology := [];
    }

    /** `Load`: the descriptor walk, then the geometry, then the topology;
        its effect is `LoadOutcome`. */
    method Load(doc: Option<Document>, store: Store) returns (failure: Option<LoadError>)
      modifies this
      ensures (failure, geometry, mixedTopology) ==
        LoadOutcome(old(geometry), old(mixedTopology), doc, store)
    {
      var found := FindGrid(doc);
      if found.Err? {
        return Some(found.error);
      }
      var grid := found.value;
      var geometrySource := GeometrySource(grid);
      if geometrySource.Err? {
        return Some(geometrySource.error);
      }
      var (geomPath, numPoints) := geometrySource.value;
      failure := LoadGeometry(store, geomPath, numPoints);
      if failure.Some? {
        return;
      }
      var topologySource := TopologySource(grid);
      if topologySource.Err? {
        return Some(topologySource.error);
      }
      failure := LoadMixedTopology(store, topologySource.value);
    }

    /** `LoadGeometry`: opens the dataset, resizes the point array to
        numPoints and reads numPoints rows of three doubles into it; its
        effect is `GeometryOutcome`. */
    method LoadGeometry(store: Store, hdf5Path: string, numPoints: uint64)
      returns (failure: Option<LoadError>)
      modifies this`geometry
      ensures (failure, geometry) == GeometryOutcome(old(geometry), store, hdf5Path, numPoints)
    {
      var dataset := OpenDataset(store, hdf5Path,
                                GeometryPathInvalid, GeometryFileOpenFailed, GeometryDatasetOpenFailed);
      if dataset.Err? {
        return Some(dataset.error);
      }
      geometry := Resize(geometry, numPoints);
      var values := RealValues(dataset.value);
      if |values| != 3 * numPoints {
        return Some(GeometryReadFailed);
      }
      geometry := Points(values);
      failure := None;
    }

    /** `LoadMixedTopology`: reads the 1-D `int64_t` dataset, clears the cell
        list and decodes records until the array is used up or a record
        cannot be read; its effect is `TopologyOutcome`. */
    method LoadMixedTopology(store: Store, hdf5Path: string) returns (failure: Option<LoadError>)
      modifies this`mixedTopology
      ensures (failure, mixedTopology) == TopologyOutcome(old(mixedTopology), store, hdf5Path)
    {
      var read := ReadTopology(store, hdf5Path);
      if read.Err? {
        return Some(read.error);
      }
      var raw := read.value;
      failure, mixedTopology := DecodeTopology(raw);
    }
  }

  /** The decoding loop of `LoadMixedTopology` over the dataset read: the
      cells decoded in order, and the failure that ended decoding early. */
  method DecodeTopology(raw: seq<int>) returns (failure: Option<LoadError>, cells: seq<Cell>)
    ensures failure == StatusFailure(Decode(raw).status)
    ensures cells == Decode(raw).cells
  {
    cells := [];
    var i: nat := 0;
    while i < |raw|
      invariant i <= |raw|
      invariant cells + DecodeAt(raw[i..], i).cells == Decode(raw).cells
      invariant DecodeAt(raw[i..], i).status == Decode(raw).status
      decreases |raw| - i
    {
      var code := AsInt32(raw[i]);
      var cellType := AsUint8(code);
      AsUint8OfAsInt32(raw[i]);
      var nodeCount := NodeCount(cellType);
      if nodeCount <= 0 {
        DecodeRecordAt(raw, i, nodeCount);
        assert cells + [] == cells;
        return Some(UnknownElementType(code)), cells;
      }
      if i + nodeCount >= |raw| {
        DecodeRecordAt(raw, i, nodeCount);
        assert cells + [] == cells;
        return Some(TopologyCorrupted), cells;
      }
      var conn := CopyIds(raw, i + 1, nodeCount);
      var cell := Cell(cellType, conn);
      var next := i + 1 + nodeCount;
      ghost var later := DecodeAt(raw[next..], next);
      DecodeRecordAt(raw, i, nodeCount);
      assert DecodeAt(raw[i..], i) == Decoded([cell] + later.cells, later.status);
      assert (cells + [cell]) + later.cells == cells + ([cell] + later.cells);
      cells := cells + [cell];
      i := next;
    }
    assert raw[i..] == [];
    assert cells + [] == cells;
    failure := None;
  }
}
