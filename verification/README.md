# XDMF mesh loader: a Dafny model

This project models the mesh-loading core of a small XDMF/HDF5 mesh viewer.
It covers two generations of that core.

- **The Mixed-topology loader** (`src/main-3.1.0.cpp`).
  - `XdmfMeshLoader` walks the XDMF descriptor (`Xdmf/Domain/Grid`) and checks each `DataItem`.
  - It reads an N×3 point array and a flat 1-D `int64_t` topology array.
  - It decodes the topology array as a stream of records `tag, id_1 … id_k`, where k is the node count of the tag.
  - From the loaded cells, `Mesh` builds one of two views:
    - a face view: hexahedron and wedge faces as triangles over de-duplicated vertices;
    - an edge view: the template edges of every hexahedron and wedge over the full point array.
- **The uniform-quad loader** (`src/main-2.0.0.cpp`, with the same class in `src/hdf5-class.cpp`).
  - `XdmfMeshLoader::Load` records the locator and extents of the geometry and topology items.
  - Its checks are: the root name, the `HDF` format, the presence of `Dimensions` and text, and that the topology extents match the element attributes.
  - `Mesh` accepts only four-node elements over 2D or 3D points, reads both datasets, and expands each quad into its four edges.

Modules, following the program's structure:

- `Common`: option/result types, the fixed-width integer conversions of the C++ code, and the point type.
- `Text`: whitespace tokens as `std::stringstream >>` yields them, `%d` scanning, decimal numerals, and the `" \t\r\n"` trim.
- `Locator`: the `file:dataset` split at the first colon.
- `Xml`: the abstract XML element (name, attributes, text, children) and the `FirstChildElement` lookup.
- `CellTypes`: the node-count table and the face and edge templates.
- `MixedTopology`: the record decoder as a specification function, its inverse, and the lemmas that relate them.
- `MixedLoader`: the 3.1.0 loader class. Its decode loop is proved against `MixedTopology`.
- `MeshViews`: the 3.1.0 `Mesh` class. The face view is proved against a de-duplication specification; the edge view is proved against template expansion.
- `QuadLoader`: the 2.0.0 / `hdf5-class.cpp` loader class.
- `QuadMesh`: `QuadToLineIndices` and the 2.0.0 `Mesh` constructor's acceptance checks and reads.

Where the code and its own description disagree, the model follows the code:

- When 3.1.0 meets an unknown tag or a truncated record, it throws. It keeps, in `mixedTopology`, the cells decoded before the bad record. The model keeps them too.
- The 3.1.0 loader does not check that the root element is named `Xdmf`; the 2.0.0 loader does.
- In 2.0.0, a data item whose text is only blanks makes `substr(npos, …)` throw `std::out_of_range` out of `Load` rather than return false. This is the error `TextBlank`.

Both loaders take the XML document as a parsed value (`Xml.Document`). The HDF5 files are also a value, in two forms:

- in `MixedLoader`, a map from file name to dataset name to dataset;
- in `QuadMesh`, the values the library delivers for each (file, dataset) pair.

The exceptions of the 3.1.0 code are the `LoadError` values. The `false` returns of the 2.0.0 code are the `QuadError` values.

## Model

| member | source | states |
|---|---|---|
| Common.AsUint8OfAsInt32 | src/main-3.1.0.cpp:234-235 | Narrowing the `int64_t` tag to `int` and then to `uint8_t` keeps the same low 8 bits as narrowing it straight to `uint8_t`. |
| CellTypes.NodeCountTable | src/main-3.1.0.cpp:260-275 | The node count is positive exactly for the tags 1, 2, 4, 5, 6, 7, 8, 9 and 36. These map to 2, 3, 3, 4, 4, 5, 6, 8 and 6. Every other tag, 3 included, gives -1. Known tags have 2 to 8 nodes. |
| Locator.FindColon | src/main-2.0.0.cpp:157 | The result is absent exactly when there is no ':'. Otherwise it is the position of a ':' with no ':' before it. |
| Locator.ParseHDF5Path | src/main-2.0.0.cpp:156-160 | It fails (the throw) exactly when the locator has no ':'. Otherwise `file + ":" + dataset` is the locator, and `file` has no ':'. |
| Locator.SplitIsFirstColon | src/hdf5-class.cpp:139-143 | Any `file + ":" + dataset` with a colon-free `file` splits back into exactly that pair, whatever colons `dataset` holds. |
| Xml.FirstChildElement | src/main-3.1.0.cpp:72-76 | The lookup fails exactly when no child has the name. Otherwise it yields the child at the first index with that name (`FirstIndexNamed`, before which no child has the name). |
| Xml.FirstIndexNamed | src/main-3.1.0.cpp:72-76 | The index found holds the name, and no earlier child does. No index means no child has the name. |
| Text.WordLength | src/main-3.1.0.cpp:119-121 | The length of the leading run of non-separators: every character before it is not a separator, and the one at it is. |
| Text.Tokens | src/main-3.1.0.cpp:119-123 | Every token read by `ss >> token` is non-empty and holds no separator. Together with `Text.TokensSplit` and `Text.TokensOfJoin`, this fixes the tokens of every string. |
| Text.TokensOfJoin | src/main-3.1.0.cpp:119-123 | Tokenising inverts joining with blanks. Every list of non-empty, separator-free tokens is read back unchanged. In particular, a single word is one token. |
| Text.TokensSplit | src/main-3.1.0.cpp:119-123 | Any separator character (blank, tab, newline, vertical tab, form feed or carriage return) splits the stream: the tokens of a, a separator, then b are the tokens of a followed by the tokens of b. So leading, trailing and repeated separators add no tokens, and the tokens are the maximal separator-free runs in order. |
| Text.Decimal | src/main-3.1.0.cpp:122 | The numeral of n is non-empty and made only of digits. |
| Text.DigitsValueOfDecimal | src/main-3.1.0.cpp:122 | Reading back the numeral of n gives n. |
| Text.ScanInt | src/main-2.0.0.cpp:143 | A `%d` conversion that succeeds leaves a proper suffix of its input for the next conversion. |
| Text.ScanIntOfDecimal | src/main-2.0.0.cpp:143 | `%d` reads a written numeral back as its value and stops right after it. |
| Text.ScanIntOfNegative | src/main-2.0.0.cpp:143 | `%d` reads a minus sign followed by a numeral as the negative value. |
| Text.ScanIntSkipsSpace | src/main-2.0.0.cpp:143 | A separator before a number does not change what `%d` reads. |
| Text.ScanIntOfSpaces | src/main-2.0.0.cpp:143 | A string of separators holds no number: the conversion fails. |
| Text.LeadingTrimSpaces | src/main-2.0.0.cpp:149 | `find_first_not_of(" \t\r\n")`: every character before the result is a trim character, and the one at it is not. |
| Text.TrailingTrimSpaces | src/main-2.0.0.cpp:150 | `find_last_not_of(" \t\r\n")`: the last n characters are trim characters, and the one before them is not. |
| Text.Trim | src/main-2.0.0.cpp:148-151 | Trimming fails (the `out_of_range` throw) exactly when the text is all blanks. Otherwise the result is non-empty, has no blank at either end, and sits in the text between an all-blank prefix and an all-blank suffix. |
| Text.TrimIdempotent | src/hdf5-class.cpp:131-134 | A trimmed locator is its own trim. |
| MixedTopology.DecodeAtStep | src/main-3.1.0.cpp:233-256 | One record is decoded in one of three ways. An unknown tag fails at the record's offset with the tag's 32-bit value. A record whose ids run past the end fails as truncated. Otherwise the cell is the tag plus the next k values, and decoding goes on 1 + k further. |
| MixedTopology.DecodeWellFormed | src/main-3.1.0.cpp:248-254 | Every decoded cell has a known tag and exactly that tag's node count of ids. |
| MixedTopology.DecodeEncode | src/main-3.1.0.cpp:232-257 | Decoding inverts encoding. Well-formed cells written as records decode back to the same cells, and decoding completes. |
| MixedTopology.EncodeDecode | src/main-3.1.0.cpp:232-257 | Encoding inverts a complete decoding. The records of the decoded cells give back the buffer when every value is a `uint64_t` and every tag lies in 0..255. |
| MixedTopology.DecodeConsumed | src/main-3.1.0.cpp:232-257 | A complete decoding's records cover the whole buffer. A failed one reports the offset right after the records it decoded, and that offset lies inside the buffer. |
| MixedTopology.DecodeFailsOnUnknown | src/main-3.1.0.cpp:234-242 | An unknown-type failure stops at a record whose tag has node count -1. The reported code is that tag's 32-bit value. |
| MixedTopology.DecodeFailsOnTruncated | src/main-3.1.0.cpp:244-246 | A truncation failure stops at a known tag whose k ids would run past the end (`i + nodeCount >= size`). |
| MixedTopology.DecodeStops | src/main-3.1.0.cpp:232-257 | Where decoding stops, combined. A complete decoding covers the buffer. A failed one stops at the first record it cannot read, right after the decoded cells, with no skip-and-continue. That record has an unknown tag or is too short. |
| MixedTopology.DecodePrefixOnError | src/main-3.1.0.cpp:232-257 | After a failure, the cells kept are exactly the complete decoding of the buffer up to the failing record. |
| MixedTopology.DecodeHexThenWedge | src/main-3.1.0.cpp:232-257 | Example: a hexahedron record followed by a wedge record decodes to those two cells. |
| MixedTopology.DecodeTruncatedHex | src/main-3.1.0.cpp:244-246 | Example: a hexahedron tag with three ids is truncated at offset 0. |
| MixedTopology.DecodeUnknownTags | src/main-3.1.0.cpp:236-242 | Example: tags 3 and 99 are unknown and are reported with their own values. |
| MixedTopology.DecodeTagWraps | src/main-3.1.0.cpp:234-235 | Example: only the low 8 bits choose the node count. 265 decodes as a hexahedron; -1 reads as tag 255, which is unknown and reported as -1. |
| MixedLoader.ParseDimension | src/main-3.1.0.cpp:122 | `stoull` of a token succeeds exactly for a decimal numeral below 2^64, and yields its value. |
| MixedLoader.ParseExtents | src/main-3.1.0.cpp:118-123 | The extents succeed exactly when every token converts. They then have one value per token, in order. A failure is the error of the first token that does not convert: every token before it converts. |
| MixedLoader.ParseDataItem | src/main-3.1.0.cpp:113-139 | Success holds exactly when `Dimensions` is present and converts, `Format` is `HDF` and the text is present and holds a ':'. On success, `Dimensions` converts to the extents returned, and the path returned is the text itself. A missing `Dimensions` fails first. |
| MixedLoader.ParseDataItemOfDescriptor | src/main-3.1.0.cpp:113-139 | An item with `Dimensions="n 3"`, `Format="HDF"` and text `file:dataset` parses to that text and the extents [n, 3]. Its path splits back into (file, dataset). |
| MixedLoader.ParseDataItemErrors | src/main-3.1.0.cpp:113-139 | The checks run in order: missing `Dimensions`, an extent that does not convert, a format other than `HDF`, missing text, a text without ':'. The first that fails names the error. |
| MixedLoader.OpenDataset | src/main-3.1.0.cpp:143-157 | A locator without ':' fails with the path error. An open that succeeds yields the dataset stored under the locator's file and dataset halves. |
| MixedLoader.Points | src/main-3.1.0.cpp:159-166 | A row-major array of 3n doubles becomes n points. Point i is values 3i, 3i+1 and 3i+2. |
| MixedLoader.FlattenPoints | src/main-3.1.0.cpp:159-166 | Reading rows as points loses nothing: writing the points out again gives back the values. |
| MixedLoader.Resize | src/main-3.1.0.cpp:159 | `resize(n)` leaves exactly n points. It keeps the first ones and pads with the origin. |
| MixedLoader.GeometryOutcomeRows | src/main-3.1.0.cpp:141-177 | A geometry load that succeeds holds exactly numPoints points, and their coordinates are the dataset's values in order. A failed read leaves numPoints points, because the resize came first. A locator without ':' changes nothing. |
| MixedLoader.ReadTopology | src/main-3.1.0.cpp:181-218 | A topology read succeeds only for a dataset that opens and has one dimension, and yields its `int64_t` values (a floating-point dataset is treated as a failed read; see Left out). |
| MixedLoader.StatusFailure | src/main-3.1.0.cpp:236-246 | Decoding throws exactly when it did not complete. |
| MixedLoader.TopologyOutcomeCells | src/main-3.1.0.cpp:179-257 | After a topology load, every cell is well-formed. After a clean load, the cells re-encode the dataset, given non-negative values and tags in 0..255. After a decoding error, the cells are the complete decoding of the dataset up to the failing record. |
| MixedLoader.TopologyOutcomeClears | src/main-3.1.0.cpp:224-225 | Once the dataset is read, the resulting cells do not depend on the cells held before. An empty dataset leaves no cells and no failure. |
| MixedLoader.DecodeRecordAt | src/main-3.1.0.cpp:233-256 | One step of the loop at cursor i of the whole array, in each of its three outcomes. |
| MixedLoader.FindGrid | src/main-3.1.0.cpp:62-76 | The grid is the first `Grid` child of the root's first `Domain` child, whatever the root is named. A missing document, root, `Domain` or `Grid` fails with its own error. |
| MixedLoader.GeometrySource | src/main-3.1.0.cpp:79-92 | Geometry goes through the grid's first `Geometry` child and that child's first `DataItem`. A missing link fails with its own error, and an item that does not parse fails with the item's error. A parsed item succeeds exactly when its extents are [n, 3]; otherwise the dimensions error is returned. On success the result is the item's path, which holds a ':', and n as the point count. |
| MixedLoader.TopologySource | src/main-3.1.0.cpp:95-108 | Topology goes through the grid's first `Topology` child. A missing child fails, and a `TopologyType` other than `Mixed` gives the not-mixed error. Then comes that child's first `DataItem`: a missing item fails, and otherwise the result succeeds exactly when the item parses, with the item's error or the item's path (which holds a ':'). |
| MixedLoader.LoadOutcomeOnSuccess | src/main-3.1.0.cpp:62-111 | A successful load found a grid with an [n, 3] geometry item and read n points. It decoded the whole topology dataset, completely, into well-formed cells. |
| MixedLoader.LoadOutcomeBeforeGeometry | src/main-3.1.0.cpp:62-91 | A failure in the descriptor walk, or in the geometry item, reports that error and changes nothing. |
| MixedLoader.LoadOutcomeKeepsGeometry | src/main-3.1.0.cpp:92-111 | A failure in the topology element keeps whatever the geometry load left: there is no rollback. |
| MixedLoader.CopyIds | src/main-3.1.0.cpp:248-253 | The inner loop copies the k values after the tag, each converted to `uint64_t`. |
| MixedLoader.DecodeTopology | src/main-3.1.0.cpp:232-257 | The decode loop yields exactly the cells of the decoding specification. It throws exactly the error that ends it. |
| MixedLoader.XdmfMeshLoader.constructor | src/main-3.1.0.cpp:39-47 | A new loader has no points and no cells. |
| MixedLoader.XdmfMeshLoader.Load | src/main-3.1.0.cpp:62-111 | The error, the points and the cells are those of the staged load outcome: descriptor, then geometry, then topology. |
| MixedLoader.XdmfMeshLoader.LoadGeometry | src/main-3.1.0.cpp:141-177 | The error and the new point array are those of the geometry outcome. |
| MixedLoader.XdmfMeshLoader.LoadMixedTopology | src/main-3.1.0.cpp:179-257 | The error and the new cell list are those of the topology outcome. |
| MeshViews.TemplatesValid | src/main-3.1.0.cpp:362-365 | The templates fit their cells. There are 6 hexahedron quads and 5 wedge triangles. Hexahedra have 12 edges with ids below 8; wedges have 9 edges with ids below 6. |
| MeshViews.HexCorner | src/main-3.1.0.cpp:366-372 | Every triangle corner of a hexahedron names one of its 8 nodes. |
| MeshViews.WedgeCorner | src/main-3.1.0.cpp:388-393 | Every triangle corner of a wedge names one of its 6 nodes. |
| MeshViews.CellCorners | src/main-3.1.0.cpp:361-405 | A hexahedron yields 36 corner ids and a wedge 15. Any other cell yields none. Every corner id is an id of the cell. |
| MeshViews.HexFan | src/main-3.1.0.cpp:366-372 | The corners of hexahedron face f are a, b, c, a, c, d of that quad. They follow the corners of the faces before it. |
| MeshViews.WedgeFan | src/main-3.1.0.cpp:388-393 | The corners of wedge face f are its three ids. They follow the corners of the faces before it. |
| MeshViews.CornersCount | src/main-3.1.0.cpp:358-405 | All cells together contribute 36 corners per hexahedron and 15 per wedge. |
| MeshViews.VisitKeeps | src/main-3.1.0.cpp:373-381 | One corner visit keeps the id map and the vertex list inverse to each other. It only appends, and the appended index names the vertex of the visited id. |
| MeshViews.VisitAllCorrect | src/main-3.1.0.cpp:358-406 | De-duplication is correct. The vertex list has no repeated id and holds exactly the ids met. Each index names the vertex of its corner's id. |
| MeshViews.VertexIdsInFirstOrder | src/main-3.1.0.cpp:373-381 | The vertex list is in first-reference order: it equals the list of distinct ids where each first occurs. |
| MeshViews.FaceViewCorrect | src/main-3.1.0.cpp:351-409 | The face view has one index per triangle corner (36 per hexahedron, 15 per wedge). Each index is below the vertex count and names that corner's node. Each corner id appears in the vertices once. |
| MeshViews.FaceViewSizes | src/main-3.1.0.cpp:351-409 | The vertex count is the number of distinct corner ids. The index count is the number of corners. |
| MeshViews.SingleHexFaceView | src/main-3.1.0.cpp:361-383 | Example: one hexahedron with 8 distinct ids gives 8 vertices and 36 indices. |
| MeshViews.EdgePairs | src/main-3.1.0.cpp:507-512 | A template of e edges gives 2e indices. |
| MeshViews.EdgePairsAt | src/main-3.1.0.cpp:507-512 | Template edge k becomes indices 2k and 2k+1: its two node ids, narrowed to `unsigned int`. |
| MeshViews.CellEdgeIds | src/main-3.1.0.cpp:444-463 | A wedge contributes 18 indices and a hexahedron 24. Any other cell contributes none. |
| MeshViews.EdgeIdsCount | src/main-3.1.0.cpp:444-463 | The edge view has 18 indices per wedge and 24 per hexahedron. |
| MeshViews.EdgeIdsInRange | src/main-3.1.0.cpp:507-512 | Take fewer than 2^32 points, with every wedge and hexahedron id below the point count. Then every line index names a point. |
| MeshViews.Positions | src/main-3.1.0.cpp:374-379 | The k-th vertex is the point of the k-th id. |
| MeshViews.EmitCorners | src/main-3.1.0.cpp:372-382 | The vid loop updates the map, the vertices and the indices exactly as visiting the face's corners in order does. |
| MeshViews.EmitHexFaces | src/main-3.1.0.cpp:361-383 | The face loop of a hexahedron visits its 36 corners in order. |
| MeshViews.EmitWedgeFaces | src/main-3.1.0.cpp:384-404 | The face loop of a wedge visits its 15 corners in order. |
| MeshViews.EmitCellFaces | src/main-3.1.0.cpp:358-405 | One pass of the cell loop visits the cell's corners; any other cell is skipped. |
| MeshViews.Mesh.constructor | src/main-3.1.0.cpp:484-489 | With wireframe, the mesh holds every point and the edge view. Otherwise it holds the points of the de-duplicated vertices and the face view's indices. |
| MeshViews.Mesh.MeshFace | src/main-3.1.0.cpp:351-409 | The vertices are the points of the face view's vertex ids, each of which indexes the point array. The triangle indices are the face view's indices. |
| MeshViews.Mesh.MeshLine | src/main-3.1.0.cpp:431-463 | The vertices gain every point in order. The line indices gain the template edges of every wedge and hexahedron, in cell order. |
| MeshViews.Mesh.AddCellEdges | src/main-3.1.0.cpp:444-463 | One cell appends its wedge or hexahedron edge pairs, or nothing. |
| MeshViews.Mesh.AddEdges | src/main-3.1.0.cpp:507-512 | The two ids of every template edge are appended in template order. |
| QuadLoader.ScanDimsCases | src/main-2.0.0.cpp:143 | "a b" is read as (a, b). A lone "a" sets only the first extent and leaves the caller's second. A string with no number leaves both. |
| QuadLoader.ParseDataItem | src/main-2.0.0.cpp:128-154 | Success requires an element, `Format` equal to `HDF`, a `Dimensions`, a text and a non-blank text, and no more. On success, the path is the trimmed text and the extents are what `%d %d` scans. |
| QuadLoader.ParseDataItemErrors | src/main-2.0.0.cpp:128-146 | The checks run in order: null element, format, dimensions, text, blank text. The first that fails names the error. |
| QuadLoader.ParseDataItemPathTrimmed | src/main-2.0.0.cpp:148-151 | The path of a parsed item is already trimmed. |
| QuadLoader.IntAttribute | src/main-2.0.0.cpp:112-113 | A missing attribute leaves the caller's value. |
| QuadLoader.IntAttributeOfDecimal | src/main-2.0.0.cpp:110-113 | A written count is read back as its value. |
| QuadLoader.QuadGrid | src/main-2.0.0.cpp:77-88 | A missing document fails to load, and a missing root or one not named `Xdmf` is invalid. Under an `Xdmf` root, the grid is the first `Grid` child of the first `Domain` child. When either child is missing, the grid-missing error is returned. |
| QuadLoader.LoadEffectOnSuccess | src/main-2.0.0.cpp:70-126 | A successful load had an `Xdmf` root, a grid, a geometry item and a topology item. The stored geometry is what the geometry item parses to. The stored counts are the element's attributes, and the topology item's extents equal them. |
| QuadLoader.LoadEffectOnFailure | src/hdf5-class.cpp:83-107 | A failed load never stores a topology record. It stores a new geometry record only when the geometry item parsed, and leaves it beside the old topology. |
| QuadLoader.LoadRejectsDimsMismatch | src/hdf5-class.cpp:93-105 | Topology extents that differ from `NumberOfElements` or `NodesPerElement` fail the load, with the topology unchanged. |
| QuadLoader.LoadRejectsOtherRoot | src/main-2.0.0.cpp:77-81 | A root not named `Xdmf` fails before anything is stored. |
| QuadLoader.QuadMeshLoader.constructor | src/main-2.0.0.cpp:58-59 | A new loader holds the default mesh record: empty paths and zero counts. |
| QuadLoader.QuadMeshLoader.Load | src/main-2.0.0.cpp:70-126 | The failure and the new mesh record are those of the load effect. The geometry is stored first, then the topology, each only once its checks passed. |
| QuadMesh.QuadEdges | src/main-2.0.0.cpp:386-394 | A quad gives eight line indices. |
| QuadMesh.LineIndicesLength | src/main-2.0.0.cpp:383-397 | 4n ids give 8n line indices. |
| QuadMesh.LineIndexAt | src/main-2.0.0.cpp:385-395 | Line index i is the id at position a, b, b, c, c, d, d, a (by i mod 8) of quad i / 8, narrowed to 32 bits. |
| QuadMesh.LineIndicesAt | src/main-2.0.0.cpp:383-397 | 4n ids give 8n line indices. Every quad (a, b, c, d) becomes a, b, b, c, c, d, d, a, in quad order. |
| QuadMesh.LineIndicesKeepSmallIds | src/main-2.0.0.cpp:386-389 | When every id fits in 32 bits, each line index is the id itself. |
| QuadMesh.QuadToLineIndices | src/main-2.0.0.cpp:383-397 | The stride-4 loop produces exactly the quad edge expansion. |
| QuadMesh.Fill | src/main-2.0.0.cpp:163-166 | The buffer has n elements: the values read first, then zeros. |
| QuadMesh.ReadPoints | src/main-2.0.0.cpp:162-185 | The geometry read succeeds exactly when the locator has a ':' and the count is not negative. It then yields count values: the leading values of the dataset at the (file, dataset) the locator splits into, then zeros once the dataset runs out or when it does not open. |
| QuadMesh.ReadIndices | src/main-2.0.0.cpp:172-190 | The topology read succeeds exactly when the locator has a ':' and the count is not negative. It then yields count ids: the leading ids of the dataset at the split locator, then zeros once the dataset runs out or when it does not open. |
| QuadMesh.BuildOnlyQuads | src/main-2.0.0.cpp:327-347 | Buffers are built only after a successful load with 4 nodes per element and 2 or 3 coordinates per point. There are then numPoints·dim coordinates, 4 ids per element and 8 line indices per element. |
| QuadMesh.BuildRejects | src/main-2.0.0.cpp:334-343 | A loaded descriptor whose elements are not 4-node, or whose points are neither 2D nor 3D, builds nothing. |
| QuadMesh.CheckAndRead | src/main-2.0.0.cpp:333-347 | The checks, reads and expansion after the load give the build outcome for that load. |
| QuadMesh.Mesh.constructor | src/main-2.0.0.cpp:327-347 | The loader's record is the effect of loading the descriptor into an empty mesh. The status and the three buffers are the build outcome of the descriptor. |

## Left out

- I/O is not modelled. This covers reading the XDMF file (tinyxml2's `LoadFile`, its parser and its `GetText` rules) and the HDF5 library calls (`H5Fopen`, `H5Dopen`, `H5Dread`, dataspaces). The parsed document and the datasets are inputs. A failure to load the XML file is the `None` document.
- HDF5 type conversion is not modelled. Floating-point data read as `double` keeps its values, and integer data is converted exactly.
- `MixedLoader.ReadTopology`: the source reads the topology dataset with `H5T_NATIVE_INT64`, so HDF5 would convert a floating-point dataset to integers. The model treats a floating-point topology dataset as a failed read (`TopologyReadFailed`) instead.
- `QuadMesh.ReadPoints` and `QuadMesh.ReadIndices`: the 2.0.0 reads pass `H5S_ALL`, so a dataset larger than the buffer would be written past its end. The model keeps only the first count values (points or ids). A file or dataset that does not open leaves the zero-initialised buffer.
- OpenGL, GLFW and ImGui calls are not modelled: buffer and vertex-array setup, drawing, shaders and the window. The camera classes and the demo code of the other viewer versions are not modelled either.
- `double` to `float` conversion is not modelled: points are carried as values (`real` coordinates) and are not rounded.
- `MixedLoader.ParseDimension` models `std::stoull` only on decimal numerals. `stoull` also accepts a numeric prefix followed by other characters, and a leading sign (a negative value wraps modulo 2^64). The model rejects every token that is not all digits.
- `Text.ScanInt` does not model the overflow of a `%d` value beyond 32 bits, which is undefined in C.
- `QuadLoader.IntAttribute` does not model tinyxml2's acceptance of hexadecimal (`0x…`) values, or its value-range checks.
- `QuadMesh.Checked`: the products `numPoints * dim` and `numElements * nodesPerElement` are computed without 32-bit `int` overflow. A negative product stands for the vector-size exception (`ReadAborted`). An exception out of the constructor is a status rather than a missing object.
- `MeshViews.Mesh.constructor` requires every id of a wedge or hexahedron to index the point array, because `geom[vid]` is undefined otherwise. The `int` cast of a vertex number in `indexMap` is taken not to overflow.
- The debug output is not modelled: the dump of values around an unknown tag, and the counts printed by `mesh_line`.
- `nodeAttributes` and `cellAttributes` are not modelled: they are declared but never filled.
- The model adds methods for inline loop bodies: `CopyIds`, `DecodeTopology`, `EmitCorners`, `EmitHexFaces`, `EmitWedgeFaces`, `EmitCellFaces`, `AddCellEdges` and `CheckAndRead`. Each holds one inline loop or block of the source, so that its proof stays small. Their composition is the source's control flow.
- `MeshViews.Mesh.MeshFace` keeps the vertex ids of the face view as ghost state beside the map. The source holds only the map and the float buffer.
