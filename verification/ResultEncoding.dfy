/**
 The payloads of the officer protocol: the query result, written row by row into a
 fixed buffer, and the login request, two NUL-terminated strings.
 */
module ResultEncoding {
  import opened Common
  import opened Framing
  import opened OfficerFrames

  type Cell = Bytes
  type Row = seq<Cell>
  type Table = seq<Row>

  // ---- Writing a result ----

  /** What ends up in the buffer, and whether a row header would be written outside it. */
  datatype Written = Written(bytes: Bytes, overrun: bool)

  function Count(n: nat): (r: Bytes)
    ensures |r| == 4
  {
    LE32(n % UINT32_RANGE)
  }

  /** The cells of one row: those after the first one that does not fit are dropped. */
  function WriteCells(row: Row, offset: nat): Bytes {
    if row == [] || offset + |row[0]| + 1 > MAX_FRAME_SIZE then []
    else row[0] + [0] + WriteCells(row[1..], offset + |row[0]| + 1)
  }

  /** Dropping cells does not stop the rows after them. */
  function WriteRows(rows: Table, offset: nat): Written {
    if rows == [] then Written([], false)
    else if offset + 4 > MAX_FRAME_SIZE then Written([], true)
    else
      var cells := WriteCells(rows[0], offset + 4);
      var rest := WriteRows(rows[1..], offset + 4 + |cells|);
      Written(Count(|rows[0]|) + cells + rest.bytes, rest.overrun)
  }

  function WriteTable(rows: Table): Written {
    var rest := WriteRows(rows, 4);
    Written(Count(|rows|) + rest.bytes, rest.overrun)
  }

  method Copy(payload: array<byte>, offset: nat, bytes: Bytes)
    requires offset + |bytes| <= payload.Length
    modifies payload
    ensures payload[..offset] == old(payload[..offset])
    ensures payload[..offset + |bytes|] == old(payload[..offset]) + bytes
  {
    forall j | 0 <= j < |bytes| {
      payload[offset + j] := bytes[j];
    }
  }

  method WriteCellsOf(payload: array<byte>, start: nat, row: Row) returns (offset: nat)
    requires payload.Length == MAX_FRAME_SIZE && start <= MAX_FRAME_SIZE
    modifies payload
    ensures offset == start + |WriteCells(row, start)| <= MAX_FRAME_SIZE
    ensures payload[..offset] == old(payload[..start]) + WriteCells(row, start)
  {
    hide *;
    offset := start;
    var j := 0;
    assert row[0..] == row;
    while j < |row|
      invariant j <= |row| && start <= offset <= MAX_FRAME_SIZE
      invariant payload[..offset] + WriteCells(row[j..], offset) == old(payload[..start]) + WriteCells(row, start)
    {
      CellsStep(row[j..], offset);
      assert row[j..][1..] == row[j + 1..];
      var cellLen := |row[j]| + 1;
      if offset + cellLen > MAX_FRAME_SIZE {
        break;
      }
      ghost var before := payload[..offset];
      Copy(payload, offset, row[j] + [0]);
      offset := offset + cellLen;
      j := j + 1;
      assert payload[..offset] + WriteCells(row[j..], offset) == before + (row[j - 1] + [0] + WriteCells(row[j..], offset));
    }
    if j == |row| {
      CellsStep(row[j..], offset);
    }
    assert payload[..offset] + [] == payload[..offset];
  }

  lemma CellsStep(row: Row, offset: nat)
    ensures row == [] ==> WriteCells(row, offset) == []
    ensures row != [] && offset + |row[0]| + 1 > MAX_FRAME_SIZE ==> WriteCells(row, offset) == []
    ensures row != [] && offset + |row[0]| + 1 <= MAX_FRAME_SIZE ==>
              WriteCells(row, offset) == row[0] + [0] + WriteCells(row[1..], offset + |row[0]| + 1)
  {
  }

  /** One row: its header, then its cells. */
  method WriteRow(payload: array<byte>, start: nat, row: Row) returns (offset: nat)
    requires payload.Length == MAX_FRAME_SIZE && start + 4 <= MAX_FRAME_SIZE
    modifies payload
    ensures offset == start + 4 + |WriteCells(row, start + 4)| <= MAX_FRAME_SIZE
    ensures payload[..offset] == old(payload[..start]) + Count(|row|) + WriteCells(row, start + 4)
  {
    hide LE32, WriteCells;
    Copy(payload, start, Count(|row|));
    offset := WriteCellsOf(payload, start + 4, row);
  }

  lemma Regroup(a: Bytes, b: Bytes, c: Bytes, d: Bytes)
    ensures a + b + c + d == a + (b + c + d)
  {
  }

  /** executeAndSendQuery's serialisation.  The C++ code does not check that a row's header
      fits; `ok` is false when it would write it outside its buffer (see OverrunExact). */
  method EncodeResult(rows: Table, payload: array<byte>) returns (offset: nat, ok: bool)
    requires payload.Length == MAX_FRAME_SIZE
    modifies payload
    ensures ok <==> !WriteTable(rows).overrun
    ensures ok ==> offset == |WriteTable(rows).bytes| && offset <= MAX_FRAME_SIZE
                   && payload[..offset] == WriteTable(rows).bytes
  {
    hide WriteRows, WriteCells, Count;
    Copy(payload, 0, Count(|rows|));
    offset := 4;
    assert payload[..4] == Count(|rows|);
    assert rows[0..] == rows;
    ghost var all := WriteRows(rows, 4);
    for i := 0 to |rows|
      invariant 4 <= offset <= MAX_FRAME_SIZE
      invariant all.overrun == WriteRows(rows[i..], offset).overrun
      invariant payload[..offset] + WriteRows(rows[i..], offset).bytes == Count(|rows|) + all.bytes
    {
      RowsStep(rows[i..], offset);
      assert rows[i..][1..] == rows[i + 1..];
      if offset + 4 > MAX_FRAME_SIZE {
        return offset, false;
      }
      ghost var before, start := payload[..offset], offset;
      offset := WriteRow(payload, offset, rows[i]);
      ghost var rest := WriteRows(rows[i + 1..], offset).bytes;
      Regroup(before, Count(|rows[i]|), WriteCells(rows[i], start + 4), rest);
    }
    RowsStep(rows[|rows|..], offset);
    assert payload[..offset] + [] == payload[..offset];
    return offset, true;
  }

  lemma RowsStep(rows: Table, offset: nat)
    ensures rows == [] ==> WriteRows(rows, offset) == Written([], false)
    ensures rows != [] && offset + 4 > MAX_FRAME_SIZE ==> WriteRows(rows, offset) == Written([], true)
    ensures rows != [] && offset + 4 <= MAX_FRAME_SIZE ==>
              var cells := WriteCells(rows[0], offset + 4);
              var rest := WriteRows(rows[1..], offset + 4 + |cells|);
              WriteRows(rows, offset) == Written(Count(|rows[0]|) + cells + rest.bytes, rest.overrun)
  {
  }

  // ---- The format, without a bound ----

  function CellsBytes(row: Row): Bytes {
    if row == [] then [] else row[0] + [0] + CellsBytes(row[1..])
  }

  function RowsBytes(rows: Table): Bytes {
    if rows == [] then [] else Count(|rows[0]|) + CellsBytes(rows[0]) + RowsBytes(rows[1..])
  }

  function TableBytes(rows: Table): Bytes {
    Count(|rows|) + RowsBytes(rows)
  }

  predicate NulFree(cell: Cell) {
    0 !in cell
  }

  predicate Plain(rows: Table) {
    |rows| < UINT32_RANGE &&
    forall i :: 0 <= i < |rows| ==> |rows[i]| < UINT32_RANGE && forall j :: 0 <= j < |rows[i]| ==> NulFree(rows[i][j])
  }

  lemma {:induction false} CellsFit(row: Row, offset: nat)
    requires offset + |CellsBytes(row)| <= MAX_FRAME_SIZE
    ensures WriteCells(row, offset) == CellsBytes(row)
  {
    if row != [] {
      CellsFit(row[1..], offset + |row[0]| + 1);
    }
  }

  lemma {:induction false} RowsFit(rows: Table, offset: nat)
    requires offset + |RowsBytes(rows)| <= MAX_FRAME_SIZE
    ensures WriteRows(rows, offset) == Written(RowsBytes(rows), false)
  {
    if rows != [] {
      CellsFit(rows[0], offset + 4);
      RowsFit(rows[1..], offset + 4 + |CellsBytes(rows[0])|);
    }
  }

  lemma {:induction false} CellsBounded(row: Row, offset: nat)
    requires offset <= MAX_FRAME_SIZE
    ensures offset + |WriteCells(row, offset)| <= MAX_FRAME_SIZE
  {
    if row != [] && offset + |row[0]| + 1 <= MAX_FRAME_SIZE {
      CellsBounded(row[1..], offset + |row[0]| + 1);
    }
  }

  lemma {:induction false} RowsBounded(rows: Table, offset: nat)
    requires offset <= MAX_FRAME_SIZE
    ensures offset + |WriteRows(rows, offset).bytes| <= MAX_FRAME_SIZE
  {
    if rows != [] && offset + 4 <= MAX_FRAME_SIZE {
      CellsBounded(rows[0], offset + 4);
      RowsBounded(rows[1..], offset + 4 + |WriteCells(rows[0], offset + 4)|);
    }
  }

  // ---- Reading it back ----

  /** Position of the first NUL at or after `from`, or the length. */
  function FindNul(b: Bytes, from: nat): (i: nat)
    requires from <= |b|
    ensures from <= i <= |b| && (i < |b| ==> b[i] == 0)
    ensures forall j :: from <= j < i ==> b[j] != 0
    decreases |b| - from
  {
    if from == |b| || b[from] == 0 then from
    else FindNul(b, from + 1)
  }

  datatype Read<T> = Read(value: T, rest: Bytes)

  function ReadCells(n: nat, b: Bytes): Option<Read<Row>> {
    if n == 0 then Some(Read([], b))
    else
      var i := FindNul(b, 0);
      if i == |b| then None
      else match ReadCells(n - 1, b[i + 1..])
        case None => None
        case Some(r) => Some(Read([b[..i]] + r.value, r.rest))
  }

  function ReadRows(n: nat, b: Bytes): Option<Read<Table>> {
    if n == 0 then Some(Read([], b))
    else if |b| < 4 then None
    else match ReadCells(FromLE32(b[..4]), b[4..])
      case None => None
      case Some(row) => match ReadRows(n - 1, row.rest)
        case None => None
        case Some(r) => Some(Read([row.value] + r.value, r.rest))
  }

  /** A reader that accepts a payload only when it is exactly one table. */
  function ReadTable(b: Bytes): Option<Table> {
    if |b| < 4 then None
    else match ReadRows(FromLE32(b[..4]), b[4..])
      case None => None
      case Some(r) => if r.rest == [] then Some(r.value) else None
  }

  lemma FindNulAt(b: Bytes, i: nat)
    requires i < |b| && b[i] == 0 && forall j :: 0 <= j < i ==> b[j] != 0
    ensures FindNul(b, 0) == i
  {
  }

  lemma ReadCellsStep(n: nat, b: Bytes, i: nat)
    requires n > 0 && i < |b| && b[i] == 0 && forall j :: 0 <= j < i ==> b[j] != 0
    ensures ReadCells(n, b) == match ReadCells(n - 1, b[i + 1..])
                               case None => None
                               case Some(r) => Some(Read([b[..i]] + r.value, r.rest))
  {
    FindNulAt(b, i);
  }

  lemma CellsCons(cell: Cell, row: Row, rest: Bytes)
    ensures CellsBytes([cell] + row) + rest == cell + ([0] + (CellsBytes(row) + rest))
  {
    assert ([cell] + row)[1..] == row;
  }

  lemma {:induction false} CellsBack(row: Row, rest: Bytes)
    requires forall j :: 0 <= j < |row| ==> NulFree(row[j])
    ensures ReadCells(|row|, CellsBytes(row) + rest) == Some(Read(row, rest))
  {
    hide CellsBytes, FindNul;
    if row == [] {
      CellsBytesEmpty();
      assert CellsBytes(row) + rest == rest;
    } else {
      hide ReadCells;
      var cell, more, n := row[0], row[1..], |row[0]|;
      var b, tail := CellsBytes(row) + rest, CellsBytes(more) + rest;
      CellsCons(cell, more, rest);
      assert row == [cell] + more;
      assert b == cell + ([0] + tail);
      assert b[..n] == cell && b[n] == 0 && b[n + 1..] == tail;
      assert forall j :: 0 <= j < n ==> b[j] == cell[j];
      ReadCellsStep(|row|, b, n);
      CellsBack(more, rest);
    }
  }

  lemma CellsBytesEmpty()
    ensures CellsBytes([]) == []
  {
  }

  lemma CountBack(n: nat, rest: Bytes)
    requires n < UINT32_RANGE
    ensures |Count(n) + rest| >= 4 && FromLE32((Count(n) + rest)[..4]) == n && (Count(n) + rest)[4..] == rest
  {
    LengthRoundTrip(n, LE32(n));
    assert (Count(n) + rest)[..4] == LE32(n);
  }

  lemma {:induction false} RowsBack(rows: Table, rest: Bytes)
    requires Plain(rows)
    ensures ReadRows(|rows|, RowsBytes(rows) + rest) == Some(Read(rows, rest))
  {
    hide LE32, FromLE32, ReadCells, CellsBytes;
    if rows == [] {
      assert RowsBytes(rows) + rest == rest;
    } else {
      var tail := RowsBytes(rows[1..]) + rest;
      assert RowsBytes(rows) + rest == Count(|rows[0]|) + (CellsBytes(rows[0]) + tail);
      CountBack(|rows[0]|, CellsBytes(rows[0]) + tail);
      CellsBack(rows[0], tail);
      RowsBack(rows[1..], rest);
      assert [rows[0]] + rows[1..] == rows;
    }
  }

  lemma RowsCons(row: Row, rows: Table, rest: Bytes)
    ensures RowsBytes([row] + rows) + rest == Count(|row|) + (CellsBytes(row) + (RowsBytes(rows) + rest))
  {
    assert ([row] + rows)[1..] == rows;
  }

  lemma {:induction false} CellsSound(n: nat, b: Bytes)
    requires ReadCells(n, b).Some?
    ensures var r := ReadCells(n, b).value; |r.value| == n && b == CellsBytes(r.value) + r.rest
  {
    hide FindNul;
    if n == 0 {
      assert CellsBytes([]) + b == b;
    } else {
      var i := FindNul(b, 0);
      ReadCellsStep(n, b, i);
      CellsSound(n - 1, b[i + 1..]);
      var r := ReadCells(n - 1, b[i + 1..]).value;
      CellsCons(b[..i], r.value, r.rest);
      assert b == b[..i] + ([0] + b[i + 1..]);
    }
  }

  lemma {:induction false} RowsSound(n: nat, b: Bytes)
    requires ReadRows(n, b).Some?
    ensures var r := ReadRows(n, b).value; |r.value| == n && b == RowsBytes(r.value) + r.rest
  {
    hide LE32, FromLE32, ReadCells, CellsBytes;
    if n == 0 {
      assert RowsBytes([]) + b == b;
    } else {
      CellsSound(FromLE32(b[..4]), b[4..]);
      var row := ReadCells(FromLE32(b[..4]), b[4..]).value;
      RowsSound(n - 1, row.rest);
      var r := ReadRows(n - 1, row.rest).value;
      RowsCons(row.value, r.value, r.rest);
      LengthRoundTrip(0, b[..4]);
      assert b == b[..4] + (CellsBytes(row.value) + row.rest);
    }
  }

  /** What the reader accepts is the encoding of what it returns. */
  lemma ReadSound(b: Bytes)
    requires ReadTable(b).Some?
    ensures b == TableBytes(ReadTable(b).value)
  {
    hide LE32, FromLE32, ReadRows, RowsBytes;
    RowsSound(FromLE32(b[..4]), b[4..]);
    LengthRoundTrip(0, b[..4]);
    var r := ReadRows(FromLE32(b[..4]), b[4..]).value;
    assert b == b[..4] + b[4..] && r.rest == [] && RowsBytes(r.value) + [] == RowsBytes(r.value);
  }

  lemma ReadBack(rows: Table)
    requires Plain(rows)
    ensures ReadTable(TableBytes(rows)) == Some(rows)
  {
    hide LE32, FromLE32, ReadRows, RowsBytes;
    CountBack(|rows|, RowsBytes(rows));
    RowsBack(rows, []);
    assert RowsBytes(rows) + [] == RowsBytes(rows);
  }

  /** A result is sent, and reads back as the same table, exactly when the whole encoding
      fits; a truncated result never does. */
  lemma RoundTripExact(rows: Table)
    requires Plain(rows)
    ensures !WriteTable(rows).overrun && ReadTable(WriteTable(rows).bytes) == Some(rows)
            <==> |TableBytes(rows)| <= 65536
  {
    hide WriteRows, RowsBytes, ReadTable;
    RowsBounded(rows, 4);
    if |TableBytes(rows)| <= MAX_FRAME_SIZE {
      RowsFit(rows, 4);
      ReadBack(rows);
    }
    if ReadTable(WriteTable(rows).bytes) == Some(rows) {
      ReadSound(WriteTable(rows).bytes);
    }
  }

  lemma FitsWithoutOverrun(rows: Table)
    requires |TableBytes(rows)| <= MAX_FRAME_SIZE
    ensures WriteTable(rows) == Written(TableBytes(rows), false)
  {
    RowsFit(rows, 4);
  }

  // ---- Where the buffer is too small ----

  /** Where the header of row i is written. */
  function HeaderAt(rows: Table, i: nat): nat
    requires i <= |rows|
  {
    4 + |WriteRows(rows[..i], 4).bytes|
  }

  /** There is no check before a row's header: a write leaves the buffer exactly when some
      header starts less than four bytes before its end. */
  lemma OverrunExact(rows: Table)
    ensures WriteTable(rows).overrun <==>
            exists i :: 0 <= i < |rows| && HeaderAt(rows, i) + 4 > MAX_FRAME_SIZE
  {
    hide WriteRows;
    OverrunFrom(rows, 4);
    if exists i :: 0 <= i < |rows| && HeaderAt(rows, i) + 4 > MAX_FRAME_SIZE {
      var i :| 0 <= i < |rows| && HeaderAt(rows, i) + 4 > MAX_FRAME_SIZE;
      assert 4 + |WriteRows(rows[..i], 4).bytes| + 4 > MAX_FRAME_SIZE;
    }
    if exists i :: 0 <= i < |rows| && 4 + |WriteRows(rows[..i], 4).bytes| + 4 > MAX_FRAME_SIZE {
      var i :| 0 <= i < |rows| && 4 + |WriteRows(rows[..i], 4).bytes| + 4 > MAX_FRAME_SIZE;
      assert HeaderAt(rows, i) + 4 > MAX_FRAME_SIZE;
    }
  }

  lemma {:induction false} OverrunFrom(rows: Table, offset: nat)
    requires offset <= MAX_FRAME_SIZE
    ensures WriteRows(rows, offset).overrun <==>
            exists i :: 0 <= i < |rows| && offset + |WriteRows(rows[..i], offset).bytes| + 4 > MAX_FRAME_SIZE
  {
    hide WriteRows, WriteCells;
    RowsStep(rows, offset);
    if rows != [] {
      assert rows[..0] == [];
      RowsStep(rows[..0], offset);
      if offset + 4 > MAX_FRAME_SIZE {
        assert offset + |WriteRows(rows[..0], offset).bytes| + 4 > MAX_FRAME_SIZE;
      } else {
        var next := offset + 4 + |WriteCells(rows[0], offset + 4)|;
        CellsBounded(rows[0], offset + 4);
        OverrunFrom(rows[1..], next);
        forall i | 0 < i < |rows|
          ensures offset + |WriteRows(rows[..i], offset).bytes| == next + |WriteRows(rows[1..][..i - 1], next).bytes|
        {
          RowsStep(rows[..i], offset);
          assert rows[..i][1..] == rows[1..][..i - 1];
        }
        if WriteRows(rows[1..], next).overrun {
          var j :| 0 <= j < |rows[1..]| && next + |WriteRows(rows[1..][..j], next).bytes| + 4 > MAX_FRAME_SIZE;
          assert offset + |WriteRows(rows[..j + 1], offset).bytes| + 4 > MAX_FRAME_SIZE;
        }
        if exists i :: 0 <= i < |rows| && offset + |WriteRows(rows[..i], offset).bytes| + 4 > MAX_FRAME_SIZE {
          var i :| 0 <= i < |rows| && offset + |WriteRows(rows[..i], offset).bytes| + 4 > MAX_FRAME_SIZE;
          assert i > 0;
          assert next + |WriteRows(rows[1..][..i - 1], next).bytes| + 4 > MAX_FRAME_SIZE;
        }
      }
    }
  }

  lemma {:induction false} HeadersAdvance(rows: Table, offset: nat)
    ensures WriteRows(rows, offset).overrun || |WriteRows(rows, offset).bytes| >= 4 * |rows|
  {
    if rows != [] && offset + 4 <= MAX_FRAME_SIZE {
      HeadersAdvance(rows[1..], offset + 4 + |WriteCells(rows[0], offset + 4)|);
    }
  }

  /** So every result of 16384 rows or more, whatever its cells, is written outside. */
  lemma ManyRowsOverrun(rows: Table)
    requires |rows| >= 16384
    ensures WriteTable(rows).overrun
  {
    hide WriteRows;
    HeadersAdvance(rows, 4);
    RowsBounded(rows, 4);
  }

  // ---- What is cut ----

  /** The rows with only the first ks[i] cells of row i. */
  function CutRows(rows: Table, ks: seq<nat>): Bytes
    requires |ks| == |rows| && forall i :: 0 <= i < |rows| ==> ks[i] <= |rows[i]|
  {
    if rows == [] then [] else Count(|rows[0]|) + CellsBytes(rows[0][..ks[0]]) + CutRows(rows[1..], ks[1..])
  }

  /** Row i keeps the longest start of its cells that fits behind its header. */
  predicate LongestFit(row: Row, k: nat, offset: nat) {
    && k <= |row|
    && (k == 0 || offset + |CellsBytes(row[..k])| <= 65536)
    && (k < |row| ==> offset + |CellsBytes(row[..k])| + |row[k]| + 1 > 65536)
  }

  lemma {:induction false} CellsCut(row: Row, offset: nat) returns (k: nat)
    ensures LongestFit(row, k, offset) && WriteCells(row, offset) == CellsBytes(row[..k])
  {
    k := 0;
    if row == [] || offset + |row[0]| + 1 > MAX_FRAME_SIZE {
      assert row[..0] == [];
    } else {
      var more := CellsCut(row[1..], offset + |row[0]| + 1);
      k := more + 1;
      assert row[..k][1..] == row[1..][..more] && row[..k][0] == row[0];
      assert more < |row[1..]| ==> row[k] == row[1..][more];
      if more == 0 {
        assert row[1..][..0] == [];
      }
    }
  }

  lemma {:induction false} RowsCut(rows: Table, offset: nat) returns (ks: seq<nat>)
    requires !WriteRows(rows, offset).overrun
    ensures |ks| == |rows| && forall i :: 0 <= i < |rows| ==> ks[i] <= |rows[i]|
    ensures WriteRows(rows, offset).bytes == CutRows(rows, ks)
    ensures forall i :: 0 <= i < |rows| ==> LongestFit(rows[i], ks[i], offset + |WriteRows(rows[..i], offset).bytes| + 4)
  {
    hide WriteRows, WriteCells, CellsBytes, LongestFit, Count;
    RowsStep(rows, offset);
    ks := [];
    if rows != [] {
      assert rows[..0] == [];
      RowsStep(rows[..0], offset);
      var k := CellsCut(rows[0], offset + 4);
      assert k <= |rows[0]| by { FitSize(rows[0], k, offset + 4); }
      var next := offset + 4 + |WriteCells(rows[0], offset + 4)|;
      var more := RowsCut(rows[1..], next);
      ks := [k] + more;
      forall i | 0 < i < |rows|
        ensures offset + |WriteRows(rows[..i], offset).bytes| == next + |WriteRows(rows[1..][..i - 1], next).bytes|
      {
        RowsStep(rows[..i], offset);
        assert rows[..i][1..] == rows[1..][..i - 1];
      }
      assert forall i :: 0 < i < |rows| ==> ks[i] == more[i - 1] && rows[i] == rows[1..][i - 1];
    }
  }

  lemma FitSize(row: Row, k: nat, offset: nat)
    requires LongestFit(row, k, offset)
    ensures k <= |row|
  {
  }

  /** A result that is written inside the buffer: the number of rows, every row's header, and
      of each row the longest start of its cells that fits where the row stands; a cell that
      does not fit takes the rest of its row with it, but not the rows behind. */
  lemma TruncationExact(rows: Table) returns (ks: seq<nat>)
    requires !WriteTable(rows).overrun
    ensures |ks| == |rows| && forall i :: 0 <= i < |rows| ==> LongestFit(rows[i], ks[i], HeaderAt(rows, i) + 4)
    ensures (forall i :: 0 <= i < |rows| ==> ks[i] <= |rows[i]|) && WriteTable(rows).bytes == Count(|rows|) + CutRows(rows, ks)
  {
    hide WriteRows, LongestFit, CutRows;
    ks := RowsCut(rows, 4);
  }

  function LongCell(n: nat): (cell: Cell)
    ensures |cell| == n && NulFree(cell)
  {
    seq(n, i => 65)
  }

  /** Two rows are enough. */
  lemma TwoRowsOverrun()
    ensures Plain([[LongCell(65527)], []]) && WriteTable([[LongCell(65527)], []]).overrun
  {
    var cell := LongCell(65527);
    hide LongCell, WriteRows, WriteCells;
    var row: Row := [cell];
    var rows: Table := [row, []];
    assert row[1..] == [] && rows[1..] == [[]];
    CellsStep(row, 8);
    CellsStep(row[1..], 65536);
    RowsStep(rows, 4);
    RowsStep(rows[1..], 65536);
  }

  // ---- The frame around it ----

  /** The reader of the officer protocol refuses frames the writer of results can send: a
      complete result arrives and reads back exactly when it leaves room for the header. */
  lemma ResultDelivered(rows: Table, rest: Bytes)
    requires Plain(rows) && |TableBytes(rows)| <= 65536
    ensures var m := Message(3, WriteTable(rows).bytes);
            && (NextMessage(MessageBytes(m) + rest) == Next(m, rest) <==> |TableBytes(rows)| <= 65528)
            && (|TableBytes(rows)| > 65528 ==>
                  NextMessage(MessageBytes(m) + rest) == Unreadable)
            && ReadTable(m.payload) == Some(rows)
  {
    hide WriteTable, TableBytes, ReadTable, NextMessage, MessageBytes;
    FitsWithoutOverrun(rows);
    ReadBack(rows);
    var m := Message(3, WriteTable(rows).bytes);
    if |m.payload| <= MAX_FRAME_SIZE - FRAME_HEADER_SIZE {
      MessageBack(m, rest);
    } else {
      MessageRefused(m, rest);
    }
  }

  // ---- The login request ----

  datatype Credentials = Credentials(cnic: Bytes, password: Bytes)

  /** handleLoginRequest's split: bytes after the second NUL are ignored. */
  function SplitLogin(payload: Bytes): Option<Credentials> {
    var i := FindNul(payload, 0);
    if i == |payload| then None
    else
      var j := FindNul(payload, i + 1);
      if j == |payload| then None
      else Some(Credentials(payload[..i], payload[i + 1..j]))
  }

  function LoginBytes(c: Credentials): Bytes {
    c.cnic + [0] + c.password + [0]
  }

  /** The split finds exactly the NUL-free pair whose encoding the payload starts with;
      it fails exactly when there is none. */
  lemma SplitExact(payload: Bytes, c: Credentials)
    ensures SplitLogin(payload) == Some(c) <==> NulFree(c.cnic) && NulFree(c.password) && LoginBytes(c) <= payload
  {
    if NulFree(c.cnic) && NulFree(c.password) && LoginBytes(c) <= payload {
      SplitFinds(payload, c);
    }
    if SplitLogin(payload) == Some(c) {
      assert payload[..|c.cnic| + |c.password| + 2] == LoginBytes(c);
    }
  }

  lemma SplitFinds(payload: Bytes, c: Credentials)
    requires NulFree(c.cnic) && NulFree(c.password) && LoginBytes(c) <= payload
    ensures SplitLogin(payload) == Some(c)
  {
    var m, n, l := |c.cnic|, |c.password|, LoginBytes(c);
    assert payload[..|l|] == l;
    assert forall k :: 0 <= k < m ==> payload[k] == c.cnic[k];
    assert forall k :: 0 <= k < n ==> payload[m + 1 + k] == c.password[k];
    assert payload[m] == l[m] == 0 && payload[m + 1 + n] == l[m + 1 + n] == 0;
    assert FindNul(payload, 0) == m && FindNul(payload, m + 1) == m + 1 + n;
    assert payload[..m] == c.cnic && payload[m + 1..m + 1 + n] == c.password;
  }

  lemma SplitFails(payload: Bytes)
    requires SplitLogin(payload) == None
    ensures forall i, j :: 0 <= i < j < |payload| ==> payload[i] != 0 || payload[j] != 0
  {
  }
}
