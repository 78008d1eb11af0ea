/** The cell-type table of the Mixed topology loader: the node count of each
    tag, and the face and edge templates the two render views use. */
module CellTypes {
  import opened Common

  const WEDGE: uint8 := 8
  const HEXAHEDRON: uint8 := 9

  /** `GetNodeCountForXdmfType`: the number of node ids that follow a tag in
      the Mixed stream, -1 (the `default` case) for a tag it does not know. */
  function NodeCount(cellType: uint8): int {
    match cellType
    case 1 => 2
    case 2 => 3
    case 4 => 3
    case 5 => 4
    case 6 => 4
    case 7 => 5
    case 8 => 6
    case 9 => 8
    case 36 => 6
    case _ => -1
  }

  /** The table is exactly 1->2, 2->3, 4->3, 5->4, 6->4, 7->5, 8->6, 9->8,
      36->6; every other tag, 3 included, is unknown (-1), and every known tag
      has between two and eight nodes. */
  lemma NodeCountTable(cellType: uint8)
    ensures NodeCount(cellType) > 0 <==> cellType in {1, 2, 4, 5, 6, 7, 8, 9, 36}
    ensures NodeCount(cellType) <= 0 ==> NodeCount(cellType) == -1
    ensures NodeCount(cellType) > 0 ==> 2 <= NodeCount(cellType) <= 8
    ensures NodeCount(1) == 2 && NodeCount(2) == 3 && NodeCount(3) == -1
    ensures NodeCount(4) == 3 && NodeCount(5) == 4 && NodeCount(6) == 4
    ensures NodeCount(7) == 5 && NodeCount(8) == 6 && NodeCount(9) == 8
    ensures NodeCount(36) == 6
  {
  }

  /** Hexahedron faces, each a quad (a, b, c, d) of local node positions. */
  const HexFaces: seq<seq<nat>> :=
    [[0, 1, 2, 3], [4, 5, 6, 7], [0, 4, 5, 1], [3, 7, 6, 2], [0, 3, 7, 4], [1, 5, 6, 2]]

  /** Wedge faces, each a triangle (a, b, c) of local node positions. */
  const WedgeFaces: seq<seq<nat>> :=
    [[0, 1, 2], [3, 4, 5], [0, 1, 4], [1, 2, 5], [2, 0, 3]]

  /** Wedge edges: bottom triangle, top triangle, vertical edges. */
  const WedgeEdges: seq<(nat, nat)> :=
    [(0, 1), (1, 2), (2, 0), (3, 4), (4, 5), (5, 3), (0, 3), (1, 4), (2, 5)]

  /** Hexahedron edges: bottom, top, sides. */
  const HexEdges: seq<(nat, nat)> :=
    [(0, 1), (1, 2), (2, 3), (3, 0), (4, 5), (5, 6), (6, 7), (7, 4), (0, 4), (1, 5), (2, 6), (3, 7)]
}
