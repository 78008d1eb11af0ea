/** The Mixed topology stream: a flat buffer of integers read as records
    `tag, id_1, ..., id_k` with k = NodeCount(tag), no count and no delimiter.
    This module holds the decoder as a specification function, its inverse and
    the lemmas that relate them; the loader's loop is proved against it. */
module MixedTopology {
  import opened Common
  import opened CellTypes

  /** `MixedElement`: a cell tag and its node ids. */
  datatype Cell = Cell(cellType: uint8, conn: seq<uint64>)

  /** A cell whose tag is known and whose id list has that tag's node count. */
  predicate WellFormed(c: Cell) {
    NodeCount(c.cellType) > 0 && |c.conn| == NodeCount(c.cellType)
  }

  /** How decoding ended: the buffer was used up, or the record starting at
      `offset` had an unknown tag (reported as the 32-bit `int` the message
      prints) or needed more values than remain. */
  datatype Status =
    | Complete
    | UnknownType(code: int, offset: nat)
    | Truncated(offset: nat)

  /** The cells decoded before decoding ended, and how it ended. */
  datatype Decoded = Decoded(cells: seq<Cell>, status: Status)

  /** The node ids of one record, each converted to `uint64_t`. */
  function Conn(ids: seq<int>): seq<uint64> {
    seq(|ids|, j requires 0 <= j < |ids| => AsUint64(ids[j]))
  }

  /** Ids that already are `uint64_t` values pass through the conversion. */
  lemma ConnInRange(ids: seq<int>)
    requires forall j :: 0 <= j < |ids| ==> 0 <= ids[j] < TWO_TO_64
    ensures Conn(ids) == ids
  {
    forall j | 0 <= j < |ids| ensures Conn(ids)[j] == ids[j] {
      assert 0 <= ids[j] < TWO_TO_64;
    }
  }

  /** The ids of a record whose values are all `uint64_t` values. */
  lemma RecordConn(rest: seq<int>, k: nat)
    requires k < |rest|
    requires forall j :: 0 <= j < |rest| ==> 0 <= rest[j] < TWO_TO_64
    ensures Conn(rest[1..1 + k]) == rest[1..1 + k]
  {
    var ids := rest[1..1 + k];
    assert forall j :: 0 <= j < |ids| ==> ids[j] == rest[1 + j];
    ConnInRange(ids);
  }

  /** Decodes `rest`, the part of the buffer that starts at position `offset`.
      The tag is read through `uint8_t`, so only its low 8 bits choose the
      node count; the test `i + nodeCount >= size` rejects a record with fewer
      than nodeCount ids after its tag. */
  function DecodeAt(rest: seq<int>, offset: nat): Decoded
    decreases |rest|
  {
    if |rest| == 0 then Decoded([], Complete)
    else
      var tag := AsUint8(rest[0]);
      var k := NodeCount(tag);
      if k <= 0 then Decoded([], UnknownType(AsInt32(rest[0]), offset))
      else if k >= |rest| then Decoded([], Truncated(offset))
      else
        var d := DecodeAt(rest[1 + k..], offset + 1 + k);
        Decoded([Cell(tag, Conn(rest[1..1 + k]))] + d.cells, d.status)
  }

  /** Decodes a whole buffer (in the loader, a sequence of `int64_t`). */
  function Decode(raw: seq<int>): Decoded {
    DecodeAt(raw, 0)
  }

  /** The records of the cells written back to back: tag, then ids. */
  function Encode(cells: seq<Cell>): seq<int> {
    if |cells| == 0 then []
    else [cells[0].cellType as int] + cells[0].conn + Encode(cells[1..])
  }

  /** One step of decoding, by the three outcomes of the record at the front. */
  lemma DecodeAtStep(rest: seq<int>, offset: nat, k: int)
    requires |rest| > 0 && NodeCount(AsUint8(rest[0])) == k
    ensures k <= 0 ==> DecodeAt(rest, offset) == Decoded([], UnknownType(AsInt32(rest[0]), offset))
    ensures 0 < k && k >= |rest| ==> DecodeAt(rest, offset) == Decoded([], Truncated(offset))
    ensures 0 < k < |rest| ==>
      var d := DecodeAt(rest[1 + k..], offset + 1 + k);
      DecodeAt(rest, offset) ==
        Decoded([Cell(AsUint8(rest[0]), Conn(rest[1..1 + k]))] + d.cells, d.status)
  {
  }

  /** Every decoded cell has a known tag and exactly that tag's number of
      ids. */
  lemma {:induction false} DecodeWellFormed(rest: seq<int>, offset: nat)
    ensures forall c :: c in DecodeAt(rest, offset).cells ==> WellFormed(c)
    decreases |rest|
  {
    if |rest| > 0 {
      var k := NodeCount(AsUint8(rest[0]));
      DecodeAtStep(rest, offset, k);
      if 0 < k < |rest| {
        DecodeWellFormed(rest[1 + k..], offset + 1 + k);
      }
    }
  }

  /** A record followed by an encoded tail re-encodes the buffer it came from. */
  lemma EncodeRecord(rest: seq<int>, k: nat, c: Cell, cells: seq<Cell>)
    requires k < |rest| && c.cellType as int == rest[0] && c.conn == rest[1..1 + k]
    requires Encode(cells) == rest[1 + k..]
    ensures Encode([c] + cells) == rest
  {
    EncodeCons(c, cells);
    assert rest == [rest[0]] + rest[1..1 + k] + rest[1 + k..];
  }

  lemma EncodeCons(c: Cell, cells: seq<Cell>)
    ensures Encode([c] + cells) == [c.cellType as int] + c.conn + Encode(cells)
  {
    assert ([c] + cells)[1..] == cells;
  }

  /** Decoding inverts encoding: every list of well-formed cells, written out
      as records, decodes back to the same cells and uses up the buffer. */
  lemma {:induction false} DecodeEncode(cells: seq<Cell>, offset: nat)
    requires forall c :: c in cells ==> WellFormed(c)
    ensures DecodeAt(Encode(cells), offset) == Decoded(cells, Complete)
    decreases |cells|
  {
    if |cells| > 0 {
      var c := cells[0];
      var rest := Encode(cells);
      var k := |c.conn|;
      assert c in cells;
      assert WellFormed(c);
      assert rest[0] == c.cellType as int;
      assert AsUint8(rest[0]) == c.cellType;
      assert rest[1..1 + k] == c.conn;
      assert Conn(rest[1..1 + k]) == c.conn;
      assert rest[1 + k..] == Encode(cells[1..]);
      DecodeAtStep(rest, offset, k);
      DecodeEncode(cells[1..], offset + 1 + k);
      assert cells == [c] + cells[1..];
    } else {
      assert Encode(cells) == [];
    }
  }

  /** The tag at the start of every record lies in 0..255, so that reading it
      through `uint8_t` does not change it. */
  ghost predicate TagsFit(rest: seq<int>, cells: seq<Cell>)
    decreases |cells|
  {
    |cells| == 0 ||
    (|rest| > 0 && 0 <= rest[0] < TWO_TO_8 && 1 + |cells[0].conn| <= |rest| &&
     TagsFit(rest[1 + |cells[0].conn|..], cells[1..]))
  }

  /** The buffer decodes completely, holds only `uint64_t` values, and every
      record's tag lies in 0..255. */
  ghost predicate DecodesFitting(rest: seq<int>, offset: nat) {
    && DecodeAt(rest, offset).status == Complete
    && (forall j :: 0 <= j < |rest| ==> 0 <= rest[j] < TWO_TO_64)
    && TagsFit(rest, DecodeAt(rest, offset).cells)
  }

  /** Encoding the cells the buffer decodes to gives back the buffer. */
  ghost predicate ReEncodes(rest: seq<int>, offset: nat) {
    Encode(DecodeAt(rest, offset).cells) == rest
  }

  /** Encoding inverts a complete decoding: concatenating tag and ids over the
      decoded cells gives back the buffer, when every value is a valid
      `uint64_t` and every record's tag lies in 0..255. */
  lemma {:induction false} EncodeDecode(rest: seq<int>, offset: nat)
    requires DecodesFitting(rest, offset)
    ensures ReEncodes(rest, offset)
    decreases |rest|
  {
    if |rest| == 0 {
      assert DecodeAt(rest, offset).cells == [];
      assert Encode([]) == [] == rest;
    } else {
      var k := NodeCount(AsUint8(rest[0]));
      DecodeCompleteTail(rest, offset, k);
      EncodeDecode(rest[1 + k..], offset + 1 + k);
      EncodeDecodeStep(rest, offset, k);
    }
  }

  /** A complete decoding whose records fit their tags continues with a
      complete decoding of the same kind after its first record. */
  lemma DecodeCompleteTail(rest: seq<int>, offset: nat, k: int)
    requires |rest| > 0 && k == NodeCount(AsUint8(rest[0]))
    requires DecodesFitting(rest, offset)
    ensures 0 < k < |rest|
    ensures DecodesFitting(rest[1 + k..], offset + 1 + k)
  {
    DecodeAtStep(rest, offset, k);
    var tail := rest[1 + k..];
    var dt := DecodeAt(tail, offset + 1 + k);
    var c := Cell(AsUint8(rest[0]), Conn(rest[1..1 + k]));
    assert DecodeAt(rest, offset) == Decoded([c] + dt.cells, dt.status);
    assert dt.status == Complete;
    assert |c.conn| == k;
    TagsFitCons(rest, c, dt.cells);
    assert TagsFit(tail, dt.cells);
    SuffixInRange(rest, 1 + k);
  }

  /** The step of the round trip: the first record re-encodes to the front of
      the buffer once the rest re-encodes to the rest. */
  lemma EncodeDecodeStep(rest: seq<int>, offset: nat, k: int)
    requires |rest| > 0 && k == NodeCount(AsUint8(rest[0])) && 0 < k < |rest|
    requires DecodesFitting(rest, offset)
    ensures ReEncodes(rest[1 + k..], offset + 1 + k) ==> ReEncodes(rest, offset)
  {
    DecodeAtStep(rest, offset, k);
    var dt := DecodeAt(rest[1 + k..], offset + 1 + k);
    if Encode(dt.cells) == rest[1 + k..] {
      var c := Cell(AsUint8(rest[0]), Conn(rest[1..1 + k]));
      assert DecodeAt(rest, offset).cells == [c] + dt.cells;
      TagsFitCons(rest, c, dt.cells);
      RecordConn(rest, k);
      AsUint8InRange(rest[0]);
      EncodeRecord(rest, k, c, dt.cells);
    }
  }

  /** The tag fits and the rest fits for the remaining cells. */
  lemma TagsFitCons(rest: seq<int>, c: Cell, cells: seq<Cell>)
    requires TagsFit(rest, [c] + cells)
    ensures |rest| > 0 && 0 <= rest[0] < TWO_TO_8 && 1 + |c.conn| <= |rest|
    ensures TagsFit(rest[1 + |c.conn|..], cells)
  {
    assert ([c] + cells)[0] == c && ([c] + cells)[1..] == cells;
  }

  lemma SuffixInRange(rest: seq<int>, n: nat)
    requires n <= |rest|
    requires forall j :: 0 <= j < |rest| ==> 0 <= rest[j] < TWO_TO_64
    ensures forall j :: 0 <= j < |rest[n..]| ==> 0 <= rest[n..][j] < TWO_TO_64
  {
    forall j | 0 <= j < |rest[n..]| ensures 0 <= rest[n..][j] < TWO_TO_64 {
      assert rest[n..][j] == rest[n + j];
    }
  }

  /** How much of the buffer the decoded records cover. */
  lemma {:induction false} DecodeConsumed(rest: seq<int>, offset: nat)
    ensures var d := DecodeAt(rest, offset);
      && (d.status.Complete? ==> |Encode(d.cells)| == |rest|)
      && (!d.status.Complete? ==>
            d.status.offset == offset + |Encode(d.cells)| < offset + |rest|)
    decreases |rest|
  {
    if |rest| > 0 {
      var k := NodeCount(AsUint8(rest[0]));
      DecodeAtStep(rest, offset, k);
      if 0 < k < |rest| {
        var dt := DecodeAt(rest[1 + k..], offset + 1 + k);
        var c := Cell(AsUint8(rest[0]), Conn(rest[1..1 + k]));
        DecodeConsumed(rest[1 + k..], offset + 1 + k);
        EncodeCons(c, dt.cells);
        assert |Encode(DecodeAt(rest, offset).cells)| == 1 + k + |Encode(dt.cells)|;
      } else {
        assert Encode([]) == [];
      }
    }
  }

  /** Position n of the buffer holds a tag with no node count, whose
      32-bit value is code. */
  predicate UnknownTagAt(rest: seq<int>, n: int, code: int) {
    0 <= n < |rest| && NodeCount(AsUint8(rest[n])) == -1 && code == AsInt32(rest[n])
  }

  /** Position n of the buffer holds a known tag that needs more ids than
      the buffer has after it. */
  predicate ShortRecordAt(rest: seq<int>, n: int) {
    0 <= n < |rest| && 0 < NodeCount(AsUint8(rest[n])) && n + NodeCount(AsUint8(rest[n])) >= |rest|
  }

  /** A failing record found in a suffix is found at the shifted position in
      the whole buffer. */
  lemma FailingRecordShift(rest: seq<int>, j: nat, m: int, code: int)
    requires j <= |rest|
    ensures UnknownTagAt(rest[j..], m, code) ==> UnknownTagAt(rest, j + m, code)
    ensures ShortRecordAt(rest[j..], m) ==> ShortRecordAt(rest, j + m)
  {
    if 0 <= m < |rest| - j {
      assert rest[j..][m] == rest[j + m];
    }
  }

  /** A decoding that fails on an unknown tag stops at a record whose tag
      has no node count. */
  lemma {:induction false} DecodeFailsOnUnknown(rest: seq<int>, offset: nat)
    ensures var d := DecodeAt(rest, offset);
      d.status.UnknownType? ==> UnknownTagAt(rest, |Encode(d.cells)|, d.status.code)
    decreases |rest|
  {
    if |rest| > 0 {
      var k := NodeCount(AsUint8(rest[0]));
      DecodeAtStep(rest, offset, k);
      if k <= 0 {
        NodeCountTable(AsUint8(rest[0]));
        assert Encode([]) == [];
      } else if k < |rest| {
        var dt := DecodeAt(rest[1 + k..], offset + 1 + k);
        var c := Cell(AsUint8(rest[0]), Conn(rest[1..1 + k]));
        var d := DecodeAt(rest, offset);
        assert d.cells == [c] + dt.cells && d.status == dt.status;
        DecodeFailsOnUnknown(rest[1 + k..], offset + 1 + k);
        EncodeCons(c, dt.cells);
        if d.status.UnknownType? {
          FailingRecordShift(rest, 1 + k, |Encode(dt.cells)|, d.status.code);
        }
      }
    }
  }

  /** A decoding that fails on a short record stops at a record that needs
      more values than remain. */
  lemma {:induction false} DecodeFailsOnTruncated(rest: seq<int>, offset: nat)
    ensures var d := DecodeAt(rest, offset);
      d.status.Truncated? ==> ShortRecordAt(rest, |Encode(d.cells)|)
    decreases |rest|
  {
    if |rest| > 0 {
      var k := NodeCount(AsUint8(rest[0]));
      DecodeAtStep(rest, offset, k);
      if 0 < k && k >= |rest| {
        assert Encode([]) == [];
      } else if 0 < k {
        var dt := DecodeAt(rest[1 + k..], offset + 1 + k);
        var c := Cell(AsUint8(rest[0]), Conn(rest[1..1 + k]));
        var d := DecodeAt(rest, offset);
        assert d.cells == [c] + dt.cells && d.status == dt.status;
        DecodeFailsOnTruncated(rest[1 + k..], offset + 1 + k);
        EncodeCons(c, dt.cells);
        FailingRecordShift(rest, 1 + k, |Encode(dt.cells)|, 0);
      }
    }
  }

  /** Where decoding stops. A complete decoding accounts for every value of
      the buffer; a failed one stops at the first record it cannot read, right
      after the records it did decode, and the record there has an unknown
      tag or needs more values than remain. There is no skipping ahead. */
  lemma DecodeStops(rest: seq<int>, offset: nat)
    ensures var d := DecodeAt(rest, offset);
      && (d.status.Complete? ==> |Encode(d.cells)| == |rest|)
      && (!d.status.Complete? ==>
            && d.status.offset == offset + |Encode(d.cells)|
            && |Encode(d.cells)| < |rest|)
      && (d.status.UnknownType? ==>
            var at := rest[|Encode(d.cells)|];
            NodeCount(AsUint8(at)) == -1 && d.status.code == AsInt32(at))
      && (d.status.Truncated? ==>
            var k := NodeCount(AsUint8(rest[|Encode(d.cells)|]));
            k > 0 && |Encode(d.cells)| + k >= |rest|)
  {
    DecodeConsumed(rest, offset);
    DecodeFailsOnUnknown(rest, offset);
    DecodeFailsOnTruncated(rest, offset);
  }

  /** The cells decoded before a failure are exactly what the buffer up to the
      failing record decodes to: a failure discards nothing before it. */
  lemma {:induction false} DecodePrefixOnError(rest: seq<int>, offset: nat)
    requires !DecodeAt(rest, offset).status.Complete?
    ensures var d := DecodeAt(rest, offset);
      && |Encode(d.cells)| < |rest|
      && DecodeAt(rest[..|Encode(d.cells)|], offset) == Decoded(d.cells, Complete)
    decreases |rest|
  {
    DecodeConsumed(rest, offset);
    var d := DecodeAt(rest, offset);
    var k := NodeCount(AsUint8(rest[0]));
    DecodeAtStep(rest, offset, k);
    if k > 0 && k < |rest| {
      var tail := rest[1 + k..];
      var dt := DecodeAt(tail, offset + 1 + k);
      var c := Cell(AsUint8(rest[0]), Conn(rest[1..1 + k]));
      assert d.cells == [c] + dt.cells && d.status == dt.status;
      DecodePrefixOnError(tail, offset + 1 + k);
      EncodeCons(c, dt.cells);
      var m := |Encode(dt.cells)|;
      assert |Encode(d.cells)| == 1 + k + m;
      var p := rest[..1 + k + m];
      PrefixSlices(rest, k, m);
      assert DecodeAt(tail[..m], offset + 1 + k) == Decoded(dt.cells, Complete);
      assert p[1 + k..] == tail[..m];
      DecodeAtStep(p, offset, k);
      assert DecodeAt(p, offset) == Decoded([c] + dt.cells, Complete);
    } else {
      assert rest[..0] == [];
    }
  }

  /** Cutting a buffer after one record and `m` more values keeps the record
      and cuts the remainder after `m` values. */
  lemma PrefixSlices(rest: seq<int>, k: nat, m: nat)
    requires 1 + k + m <= |rest|
    ensures rest[..1 + k + m][0] == rest[0]
    ensures rest[..1 + k + m][1..1 + k] == rest[1..1 + k]
    ensures rest[..1 + k + m][1 + k..] == rest[1 + k..][..m]
  {
  }

  /** A hexahedron followed by a wedge decodes to both cells. */
  lemma DecodeHexThenWedge()
    ensures Decode([9, 0, 1, 2, 3, 4, 5, 6, 7, 8, 10, 11, 12, 13, 14, 15]) ==
      Decoded([Cell(9, [0, 1, 2, 3, 4, 5, 6, 7]), Cell(8, [10, 11, 12, 13, 14, 15])], Complete)
  {
    var cells := [Cell(9, [0, 1, 2, 3, 4, 5, 6, 7]), Cell(8, [10, 11, 12, 13, 14, 15])];
    assert cells[1..] == [cells[1]];
    assert cells[1..][1..] == [];
    assert Encode(cells) == [9, 0, 1, 2, 3, 4, 5, 6, 7, 8, 10, 11, 12, 13, 14, 15];
    DecodeEncode(cells, 0);
  }

  /** A hexahedron tag followed by only three ids is a truncated record. */
  lemma DecodeTruncatedHex()
    ensures Decode([9, 1, 2, 3]) == Decoded([], Truncated(0))
  {
    DecodeAtStep([9, 1, 2, 3], 0, 8);
  }

  /** Tag 3 has no entry in the table, and neither has 99. */
  lemma DecodeUnknownTags()
    ensures Decode([3, 0, 1]) == Decoded([], UnknownType(3, 0))
    ensures Decode([99]) == Decoded([], UnknownType(99, 0))
  {
    DecodeAtStep([3, 0, 1], 0, -1);
    DecodeAtStep([99], 0, -1);
  }

  /** Only the low 8 bits of a tag choose its node count: 265 reads as a
      hexahedron (265 mod 256 = 9), and -1 reads as tag 255, which is
      unknown and is reported as -1. */
  lemma DecodeTagWraps()
    ensures Decode([265, 0, 1, 2, 3, 4, 5, 6, 7]) ==
      Decoded([Cell(9, [0, 1, 2, 3, 4, 5, 6, 7])], Complete)
    ensures Decode([-1]) == Decoded([], UnknownType(-1, 0))
  {
    var raw := [265, 0, 1, 2, 3, 4, 5, 6, 7];
    assert AsUint8(raw[0]) == 9;
    DecodeAtStep(raw, 0, 8);
    assert raw[9..] == [];
    assert Conn(raw[1..9]) == [0, 1, 2, 3, 4, 5, 6, 7];
    assert AsUint8(-1) == 255;
    DecodeAtStep([-1], 0, -1);
  }
}
