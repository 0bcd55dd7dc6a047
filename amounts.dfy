/**
  The line-item calculator run by `update_amounts`: per-row amounts, the
  running subtotal over rows with a description, the residual against the
  reference invoice, and the 7% VAT charged only on a positive residual.
  Amounts are exact reals; the two-decimal rendering of each field is not
  modelled.
 */
module Amounts {
  import opened Wrappers
  import opened Strings

  /** Python's `float(text)`: the value, or None where it raises ValueError. */
  type Parser = string -> Option<real>

  /** The baht-text rendering of an amount: the text, or None where it raises. */
  type BahtText = real -> Option<string>

  /** The item, quantity and unit-price texts of one table row ("" for a cell never filled in). */
  datatype ItemRow = ItemRow(item: string, qty: string, price: string)

  /** The derived fields the calculator shows. */
  datatype Totals = Totals(
    subtotal: real,
    invoiceAmount: real,
    difference: real,
    vat: real,
    totalWithVat: real,
    thaiText: string)

  const VatRate: real := 0.07

  /** One numeric cell of the try block: blank text reads as 0 without calling float(). */
  function CellNumber(text: string, parse: Parser): (v: Option<real>) {
    if IsBlank(text) then Some(0.0) else parse(text)
  }

  /** Quantity and unit price of a row; if either float() raises, both fall back to 0. */
  function QtyAndPrice(row: ItemRow, parse: Parser): (qp: (real, real)) {
    var q, p := CellNumber(row.qty, parse), CellNumber(row.price, parse);
    if q.Some? && p.Some? then (q.value, p.value) else (0.0, 0.0)
  }

  /** A row's amount: quantity times unit price. */
  function LineAmount(qty: real, price: real): (a: real) {
    qty * price
  }

  /** The amount column: None (rendered empty) for a blank description, else quantity times price. */
  function RowAmount(row: ItemRow, parse: Parser): (a: Option<real>) {
    if IsBlank(row.item) then None
    else
      var qp := QtyAndPrice(row, parse);
      Some(LineAmount(qp.0, qp.1))
  }

  /** What a row adds to the subtotal. */
  function Contribution(row: ItemRow, parse: Parser): (c: real) {
    match RowAmount(row, parse)
    case None => 0.0
    case Some(a) => a
  }

  /** The running total after the rows, taken in table order. */
  function Subtotal(rows: seq<ItemRow>, parse: Parser): (total: real) {
    if rows == [] then 0.0
    else Subtotal(rows[..|rows| - 1], parse) + Contribution(rows[|rows| - 1], parse)
  }

  /** The reference invoice amount: float() of the whole text (no blank check), 0 where it raises. */
  function InvoiceAmount(text: string, parse: Parser): (v: real) {
    match parse(text)
    case None => 0.0
    case Some(v) => v
  }

  /** VAT and total on the residual: VAT only on a positive residual, and the total is residual plus VAT. */
  function ApplyVat(diff: real): (r: (real, real))
    ensures r.0 >= 0.0 && r.1 == diff + r.0 && r.1 >= diff
    ensures r.0 > 0.0 <==> diff > 0.0
  {
    if diff > 0.0 then (diff * VatRate, diff + diff * VatRate) else (0.0, diff)
  }

  /** Everything `update_amounts` derives from the rows and the invoice text. */
  function Recompute(rows: seq<ItemRow>, invoiceText: string, parse: Parser, bahtText: BahtText): (t: Totals) {
    var subtotal := Subtotal(rows, parse);
    var invoice := InvoiceAmount(invoiceText, parse);
    var vt := ApplyVat(invoice - subtotal);
    Totals(subtotal, invoice, invoice - subtotal, vt.0, vt.1,
           match bahtText(vt.1) case Some(t) => t case None => "")
  }

  /** The loop of `update_amounts`: fills the amount column and accumulates the total, then applies the VAT rule. */
  method UpdateAmounts(rows: seq<ItemRow>, invoiceText: string, parse: Parser, bahtText: BahtText)
    returns (amounts: seq<Option<real>>, totals: Totals)
    ensures |amounts| == |rows|
    ensures forall k | 0 <= k < |rows| :: amounts[k] == RowAmount(rows[k], parse)
    ensures totals == Recompute(rows, invoiceText, parse, bahtText)
  {
    var total := 0.0;
    amounts := [];
    for row := 0 to |rows|
      invariant |amounts| == row
      invariant forall k | 0 <= k < row :: amounts[k] == RowAmount(rows[k], parse)
      invariant total == Subtotal(rows[..row], parse)
    {
      var r := rows[row];
      var qty, price := 0.0, 0.0;
      var failed := false;
      if !IsBlank(r.qty) {
        match parse(r.qty)
        case Some(v) => qty := v;
        case None => failed := true;
      }
      if !failed && !IsBlank(r.price) {
        match parse(r.price)
        case Some(v) => price := v;
        case None => failed := true;
      }
      if failed {
        qty, price := 0.0, 0.0;
      }
      assert (qty, price) == QtyAndPrice(r, parse);
      var cell: Option<real>;
      if IsBlank(r.item) {
        cell := None;
      } else {
        var amount := LineAmount(qty, price);
        cell := Some(amount);
        total := total + amount;
      }
      assert cell == RowAmount(r, parse);
      assert rows[..row + 1][..row] == rows[..row];
      amounts := amounts + [cell];
    }
    assert rows[..|rows|] == rows;

    var invoiceAmt := 0.0;
    match parse(invoiceText) {
      case Some(v) => invoiceAmt := v;
      case None =>
    }
    var diff := invoiceAmt - total;
    var vat := if diff > 0.0 then diff * VatRate else 0.0;
    var totalVat := if diff > 0.0 then diff + vat else diff;
    var thaiText := "";
    match bahtText(totalVat) {
      case Some(t) => thaiText := t;
      case None =>
    }
    totals := Totals(total, invoiceAmt, diff, vat, totalVat, thaiText);
  }

  /** A blank-description row gets an empty amount and adds nothing, whatever its quantity and price texts. */
  lemma {:induction false} BlankDescriptionContributesNothing(rows: seq<ItemRow>, k: nat, qty: string, price: string, parse: Parser)
    requires k < |rows| && IsBlank(rows[k].item)
    ensures RowAmount(rows[k].(qty := qty, price := price), parse) == None
    ensures Subtotal(rows[k := rows[k].(qty := qty, price := price)], parse) == Subtotal(rows, parse)
  {
    var rows' := rows[k := rows[k].(qty := qty, price := price)];
    var n := |rows|;
    if k == n - 1 {
      assert rows'[..n - 1] == rows[..n - 1];
    } else {
      assert rows'[..n - 1] == rows[..n - 1][k := rows[k].(qty := qty, price := price)];
      BlankDescriptionContributesNothing(rows[..n - 1], k, qty, price, parse);
    }
  }

  /** The rows whose description is not blank, in table order. */
  function Described(rows: seq<ItemRow>): (d: seq<ItemRow>)
    ensures |d| <= |rows|
    ensures forall j | 0 <= j < |d| :: !IsBlank(d[j].item) && d[j] in rows
  {
    if rows == [] then []
    else
      var last := rows[|rows| - 1];
      Described(rows[..|rows| - 1]) + (if IsBlank(last.item) then [] else [last])
  }

  /** Quantity times price summed over rows, with no description test. */
  function SumOfProducts(rows: seq<ItemRow>, parse: Parser): (total: real) {
    if rows == [] then 0.0
    else
      var qp := QtyAndPrice(rows[|rows| - 1], parse);
      SumOfProducts(rows[..|rows| - 1], parse) + LineAmount(qp.0, qp.1)
  }

  lemma {:induction false} SumOfProductsAppend(a: seq<ItemRow>, b: seq<ItemRow>, parse: Parser)
    ensures SumOfProducts(a + b, parse) == SumOfProducts(a, parse) + SumOfProducts(b, parse)
  {
    if b != [] {
      assert (a + b)[..|a + b| - 1] == a + b[..|b| - 1];
      SumOfProductsAppend(a, b[..|b| - 1], parse);
    } else {
      assert a + b == a;
    }
  }

  /** The subtotal is the sum of quantity times price over the described rows only. */
  lemma {:induction false} SubtotalOverDescribedRows(rows: seq<ItemRow>, parse: Parser)
    ensures Subtotal(rows, parse) == SumOfProducts(Described(rows), parse)
  {
    if rows != [] {
      var init, last := rows[..|rows| - 1], rows[|rows| - 1];
      SubtotalOverDescribedRows(init, parse);
      var tail := if IsBlank(last.item) then [] else [last];
      SumOfProductsAppend(Described(init), tail, parse);
      if tail != [] {
        assert tail[..0] == [];
      }
    }
  }

  /** Blank quantity or price text reads as 0 on its own; a float() failure in either zeroes both. */
  lemma NumberFallbacks(row: ItemRow, parse: Parser)
    ensures IsBlank(row.qty) ==> QtyAndPrice(row, parse).0 == 0.0
    ensures IsBlank(row.price) ==> QtyAndPrice(row, parse).1 == 0.0
    ensures !IsBlank(row.item) && (IsBlank(row.qty) || IsBlank(row.price)) ==> RowAmount(row, parse) == Some(0.0)
    ensures IsBlank(row.qty) && IsBlank(row.price) ==> QtyAndPrice(row, parse) == (0.0, 0.0)
    ensures !IsBlank(row.qty) && parse(row.qty).None? ==> QtyAndPrice(row, parse) == (0.0, 0.0)
    ensures !IsBlank(row.price) && parse(row.price).None? ==> QtyAndPrice(row, parse) == (0.0, 0.0)
    ensures !IsBlank(row.item) && QtyAndPrice(row, parse) == (0.0, 0.0) ==> RowAmount(row, parse) == Some(0.0)
  {
  }

  /** A reference invoice amount float() rejects counts as 0, so the residual is minus the subtotal. */
  lemma BadInvoiceAmountIsZero(rows: seq<ItemRow>, invoiceText: string, parse: Parser, bahtText: BahtText)
    requires parse(invoiceText).None?
    ensures Recompute(rows, invoiceText, parse, bahtText).invoiceAmount == 0.0
    ensures Recompute(rows, invoiceText, parse, bahtText).difference == -Subtotal(rows, parse)
  {
  }

  /** The residual rule: 7% VAT added on a positive residual, otherwise no VAT and the total is the residual. */
  lemma VatRule(diff: real)
    ensures diff > 0.0 ==> ApplyVat(diff) == (diff * 7.0 / 100.0, diff * 107.0 / 100.0)
    ensures diff <= 0.0 ==> ApplyVat(diff) == (0.0, diff)
  {
  }

  /** The total with VAT never falls as the residual grows. */
  lemma TotalWithVatMonotone(d1: real, d2: real)
    requires d1 <= d2
    ensures ApplyVat(d1).1 <= ApplyVat(d2).1
  {
  }

  lemma NotBlank(s: string)
    requires |s| > 0 && '0' <= s[0] <= 'z'
    ensures !IsBlank(s)
  {
    assert !IsSpace(s[0]);
  }

  /** Worked case: a blank row in the middle is ignored and VAT is charged on the residual of 75. */
  lemma PartialCreditExample(parse: Parser, bahtText: BahtText)
    requires parse("2") == Some(2.0) && parse("50.00") == Some(50.0)
    requires parse("1") == Some(1.0) && parse("25.00") == Some(25.0)
    requires parse("200.00") == Some(200.0)
    ensures var t := Recompute([ItemRow("Widget", "2", "50.00"), ItemRow("", "5", "999.00"), ItemRow("Gadget", "1", "25.00")],
                               "200.00", parse, bahtText);
      t.subtotal == 125.0 && t.difference == 75.0 && t.vat == 5.25 && t.totalWithVat == 80.25
  {
    var rows := [ItemRow("Widget", "2", "50.00"), ItemRow("", "5", "999.00"), ItemRow("Gadget", "1", "25.00")];
    NotBlank("Widget"); NotBlank("Gadget"); NotBlank("2"); NotBlank("50.00"); NotBlank("1"); NotBlank("25.00");
    assert rows[..2][..1] == rows[..1] && rows[..1][..0] == [] && rows[..2] == rows[..3][..2];
    assert Contribution(rows[0], parse) == 100.0;
    assert Contribution(rows[1], parse) == 0.0;
    assert Contribution(rows[2], parse) == 25.0;
    assert Subtotal(rows[..1], parse) == 100.0;
    assert Subtotal(rows[..2], parse) == 100.0;
    assert Subtotal(rows, parse) == 125.0;
  }

  /** Worked case: items worth more than the invoice leave a negative residual with no VAT. */
  lemma OverCreditExample(parse: Parser, bahtText: BahtText)
    requires parse("1") == Some(1.0) && parse("300.00") == Some(300.0) && parse("200.00") == Some(200.0)
    ensures var t := Recompute([ItemRow("Widget", "1", "300.00")], "200.00", parse, bahtText);
      t.subtotal == 300.0 && t.difference == -100.0 && t.vat == 0.0 && t.totalWithVat == -100.0
  {
    var rows := [ItemRow("Widget", "1", "300.00")];
    NotBlank("Widget"); NotBlank("1"); NotBlank("300.00");
    assert rows[..0] == [];
    assert Subtotal(rows, parse) == 300.0;
  }
}
