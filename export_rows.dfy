/**
  The item-table part of `export_to_excel`: rows whose four cell texts are
  all blank are skipped, and every other row is written to the next sheet
  row, starting at row 16, so the written rows are contiguous and keep
  their table order.  Each numeric cell is converted with
  `float(text or 0.0)`, which raises on text float() rejects.
 */
module ExportRows {
  import opened Wrappers
  import opened Strings
  import opened Amounts

  /** The sheet row the first written item goes to. */
  const FirstItemRow: nat := 16

  /** The four cell texts of one table row as the export reads them ("" for an empty cell). */
  datatype TableRow = TableRow(item: string, qty: string, price: string, amount: string)

  /** What one written row puts in columns A (quantity), B (item text), G (unit price) and I (amount). */
  datatype SheetLine = SheetLine(sheetRow: nat, qty: real, item: string, price: real, amount: real)

  /** The lines written, or the table row whose float() conversion raised. */
  datatype FillResult = Filled(lines: seq<SheetLine>) | BadNumber(row: nat)

  /** All four texts are blank after stripping: the row is skipped. */
  predicate RowIsBlank(r: TableRow) {
    IsBlank(r.item) && IsBlank(r.qty) && IsBlank(r.price) && IsBlank(r.amount)
  }

  /** `float(text or 0.0)`: only the empty text reads as 0; any other text, even spaces, goes to float(). */
  function SheetNumber(text: string, parse: Parser): (v: Option<real>) {
    if text == "" then Some(0.0) else parse(text)
  }

  predicate RowConverts(r: TableRow, parse: Parser) {
    SheetNumber(r.qty, parse).Some? && SheetNumber(r.price, parse).Some? && SheetNumber(r.amount, parse).Some?
  }

  /** Every row that is written converts without raising. */
  predicate AllConvert(rows: seq<TableRow>, parse: Parser) {
    forall k | 0 <= k < |rows| && !RowIsBlank(rows[k]) :: RowConverts(rows[k], parse)
  }

  function LineOf(r: TableRow, sheetRow: nat, parse: Parser): (line: SheetLine)
    requires RowConverts(r, parse)
  {
    SheetLine(sheetRow, SheetNumber(r.qty, parse).value, r.item,
              SheetNumber(r.price, parse).value, SheetNumber(r.amount, parse).value)
  }

  /** The table rows that are written, in table order. */
  function NonBlankRows(rows: seq<TableRow>): (w: seq<TableRow>)
    ensures |w| <= |rows|
  {
    if rows == [] then []
    else NonBlankRows(rows[..|rows| - 1]) + (if RowIsBlank(rows[|rows| - 1]) then [] else [rows[|rows| - 1]])
  }

  /** The row loop of `export_to_excel` for one sheet. */
  method FillItemRows(rows: seq<TableRow>, parse: Parser) returns (res: FillResult)
    ensures res.Filled? <==> AllConvert(rows, parse)
    ensures res.Filled? ==>
      && |res.lines| == |NonBlankRows(rows)|
      && forall j | 0 <= j < |res.lines| ::
           RowConverts(NonBlankRows(rows)[j], parse)
           && res.lines[j] == LineOf(NonBlankRows(rows)[j], FirstItemRow + j, parse)
    ensures res.BadNumber? ==>
      && res.row < |rows| && !RowIsBlank(rows[res.row]) && !RowConverts(rows[res.row], parse)
      && AllConvert(rows[..res.row], parse)
  {
    var startRow := FirstItemRow;
    var lines: seq<SheetLine> := [];
    for row := 0 to |rows|
      invariant AllConvert(rows[..row], parse)
      invariant startRow == FirstItemRow + |lines|
      invariant |lines| == |NonBlankRows(rows[..row])|
      invariant forall j | 0 <= j < |lines| ::
        RowConverts(NonBlankRows(rows[..row])[j], parse)
        && lines[j] == LineOf(NonBlankRows(rows[..row])[j], FirstItemRow + j, parse)
    {
      var r := rows[row];
      assert rows[..row + 1][..row] == rows[..row];
      assert NonBlankRows(rows[..row + 1]) == NonBlankRows(rows[..row]) + (if RowIsBlank(r) then [] else [r]);
      if !RowIsBlank(r) {
        var qty := SheetNumber(r.qty, parse);
        if qty.None? { return BadNumber(row); }
        var price := SheetNumber(r.price, parse);
        if price.None? { return BadNumber(row); }
        var amount := SheetNumber(r.amount, parse);
        if amount.None? { return BadNumber(row); }
        lines := lines + [SheetLine(startRow, qty.value, r.item, price.value, amount.value)];
        startRow := startRow + 1;
      }
    }
    assert rows[..|rows|] == rows;
    res := Filled(lines);
  }

  /**
    A quantity cell holding only whitespace reads differently in the two
    places: the calculator tests `strip()` first and counts it as 0, while
    the export passes the non-empty text to float(), which fails where
    float() rejects whitespace.
   */
  lemma SpaceOnlyQuantity(r: TableRow, parse: Parser)
    requires r.qty != "" && IsBlank(r.qty) && parse(r.qty).None? && !IsBlank(r.item)
    ensures QtyAndPrice(ItemRow(r.item, r.qty, r.price), parse).0 == 0.0
    ensures CellNumber(r.qty, parse) == Some(0.0)
    ensures SheetNumber(r.qty, parse).None? && !RowConverts(r, parse)
    ensures !AllConvert([r], parse)
  {
    assert [r][0] == r;
  }

  /** The table positions of the rows that are written. */
  function KeptRows(rows: seq<TableRow>): (positions: seq<nat>) {
    if rows == [] then []
    else KeptRows(rows[..|rows| - 1]) + (if RowIsBlank(rows[|rows| - 1]) then [] else [|rows| - 1])
  }

  /**
    The written rows are the non-blank rows and only those, in table order:
    the j-th written row is the table row at a position that grows with j,
    and every non-blank position is among them.
   */
  lemma WrittenInTableOrder(rows: seq<TableRow>)
    ensures |KeptRows(rows)| == |NonBlankRows(rows)|
    ensures forall j | 0 <= j < |KeptRows(rows)| ::
      KeptRows(rows)[j] < |rows| && rows[KeptRows(rows)[j]] == NonBlankRows(rows)[j] && !RowIsBlank(rows[KeptRows(rows)[j]])
    ensures forall j, j' | 0 <= j < j' < |KeptRows(rows)| :: KeptRows(rows)[j] < KeptRows(rows)[j']
    ensures forall k | 0 <= k < |rows| && !RowIsBlank(rows[k]) :: k in KeptRows(rows)
  {
    KeptRowsPointAtWritten(rows);
    KeptRowsOrdered(rows);
  }

  /** The j-th kept position holds the j-th written row. */
  lemma {:induction false} KeptRowsPointAtWritten(rows: seq<TableRow>)
    ensures |KeptRows(rows)| == |NonBlankRows(rows)|
    ensures forall j | 0 <= j < |KeptRows(rows)| ::
      KeptRows(rows)[j] < |rows| && rows[KeptRows(rows)[j]] == NonBlankRows(rows)[j] && !RowIsBlank(rows[KeptRows(rows)[j]])
  {
    if rows != [] {
      var init := rows[..|rows| - 1];
      KeptRowsPointAtWritten(init);
      var ks, ws := KeptRows(rows), NonBlankRows(rows);
      forall j | 0 <= j < |ks| ensures ks[j] < |rows| && rows[ks[j]] == ws[j] && !RowIsBlank(rows[ks[j]]) {
        if j < |KeptRows(init)| {
          assert ks[j] == KeptRows(init)[j] && ws[j] == NonBlankRows(init)[j];
          assert rows[ks[j]] == init[ks[j]];
        }
      }
    }
  }

  /** Kept positions are in range, strictly increasing, and include every non-blank position. */
  lemma {:induction false} KeptRowsOrdered(rows: seq<TableRow>)
    ensures forall j | 0 <= j < |KeptRows(rows)| :: KeptRows(rows)[j] < |rows|
    ensures forall j, j' | 0 <= j < j' < |KeptRows(rows)| :: KeptRows(rows)[j] < KeptRows(rows)[j']
    ensures forall k | 0 <= k < |rows| && !RowIsBlank(rows[k]) :: k in KeptRows(rows)
  {
    if rows != [] {
      var init := rows[..|rows| - 1];
      KeptRowsOrdered(init);
      assert KeptRows(rows) == KeptRows(init) + (if RowIsBlank(rows[|rows| - 1]) then [] else [|rows| - 1]);
      assert forall k | 0 <= k < |init| :: init[k] == rows[k];
    }
  }

  /** The number of rows written equals the number of table rows that are not entirely blank. */
  lemma {:induction false} WrittenCount(rows: seq<TableRow>)
    ensures |NonBlankRows(rows)| == |set k | 0 <= k < |rows| && !RowIsBlank(rows[k])|
  {
    if rows != [] {
      var n := |rows|;
      var init := rows[..n - 1];
      WrittenCount(init);
      var before := set k | 0 <= k < n - 1 && !RowIsBlank(init[k]);
      var after := set k | 0 <= k < n && !RowIsBlank(rows[k]);
      assert forall k | 0 <= k < n - 1 :: init[k] == rows[k];
      if RowIsBlank(rows[n - 1]) {
        assert after == before;
      } else {
        assert after == before + {n - 1};
        assert n - 1 !in before;
      }
    }
  }
}
