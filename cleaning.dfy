/** The table stages of `procesar_factura`: header names are trimmed and the two
    placeholder columns dropped; rows whose ITEM CODE is not a real item code are
    removed; short codes are padded; the order number is derived; and the result is
    projected onto the four output columns. */
module Cleaning {
  import opened Wrappers
  import opened Strings
  import opened Seqs
  import opened Frames

  const DroppedColumns: seq<string> := ["Unnamed: 0", "Unnamed: 13"]

  const ItemCodeColumn: string := "ITEM CODE"
  const SubHeaderMarker: string := "ORDER ITEM CODE"
  const OrderRefColumn: string := "ORDER REF NO"
  const QtyColumn: string := "QTY"
  const UnitRateColumn: string := "UNIT RATE"

  const MaterialColumn: string := "MAT_PROV_SOLICITADO"
  const OrderNumberColumn: string := "NRO_ORDEN_PREFIJO"
  const OutputColumns: seq<string> := [OrderNumberColumn, MaterialColumn, QtyColumn, UnitRateColumn]

  const CodeLength: nat := 14
  const CodePadding: string := "-000"
  const OrderPrefix: string := "CHL"
  const OrderSuffix: string := "-24"

  // Header cleanup.

  function KeepsColumn(names: seq<string>): nat -> bool {
    (i: nat) => i < |names| && Trim(names[i]) !in DroppedColumns
  }

  /** The positions of the columns that survive the drop. */
  function KeptColumns(names: seq<string>): seq<nat> {
    Where(|names|, KeepsColumn(names))
  }

  /** `df.columns = [col.strip() for col in df.columns]`, then the drop of the
      placeholder columns that are present. */
  function CleanColumns(f: Frame): (g: Frame)
    requires WellFormed(f)
    ensures WellFormed(g) && |g.rows| == |f.rows|
    ensures forall k :: 0 <= k < |g.columns| ==>
      IsTrimmed(g.columns[k]) && g.columns[k] !in DroppedColumns
  {
    var keep := KeptColumns(f.columns);
    var g := Frame(Pick(TrimAll(f.columns), keep),
                   seq(|f.rows|, r requires 0 <= r < |f.rows| => Pick(f.rows[r], keep)));
    assert forall k :: 0 <= k < |keep| ==> KeepsColumn(f.columns)(keep[k]);
    g
  }

  /** The surviving columns are exactly the ones whose trimmed name is not a
      placeholder, in their old order, each with its cells in every row. */
  lemma CleanColumnsKeepsOthersInOrder(f: Frame)
    requires WellFormed(f)
    ensures var g, keep := CleanColumns(f), KeptColumns(f.columns);
      |g.columns| == |keep| && StrictlyIncreasing(keep)
      && (forall i :: 0 <= i < |f.columns| ==> (i in keep <==> Trim(f.columns[i]) !in DroppedColumns))
      && (forall k :: 0 <= k < |keep| ==> (keep[k] < |f.columns|
            && g.columns[k] == Trim(f.columns[keep[k]])
            && forall r :: 0 <= r < |f.rows| ==> g.rows[r][k] == f.rows[r][keep[k]]))
  {
    var keep := KeptColumns(f.columns);
    forall i | 0 <= i < |f.columns|
      ensures i in keep <==> Trim(f.columns[i]) !in DroppedColumns
    {
      assert i in keep <==> KeepsColumn(f.columns)(i);
    }
  }

  /** A header line with a leading and a trailing `|` and 14 fields reads as
      `Unnamed: 0`, 12 named columns and `Unnamed: 13`: the two border columns are
      the ones dropped. */
  lemma BorderColumnsDropped(f: Frame)
    requires |f.columns| == 14
    requires f.columns[0] == ColumnName("", 0) && f.columns[13] == ColumnName("", 13)
    ensures 0 !in KeptColumns(f.columns) && 13 !in KeptColumns(f.columns)
  {
    assert DecimalString(13) == "13";
    assert f.columns[0] == DroppedColumns[0] && f.columns[13] == DroppedColumns[1];
    TrimOfTrimmed(DroppedColumns[0]);
    TrimOfTrimmed(DroppedColumns[1]);
    assert !KeepsColumn(f.columns)(0);
    assert !KeepsColumn(f.columns)(13);
  }

  // Row filter.

  /** The condition of `df_cleaned = df[...]` on the ITEM CODE cell. */
  predicate IsItemCode(c: Cell) {
    c.Some? && c.value != "" && c.value != ItemCodeColumn && !Contains(c.value, SubHeaderMarker)
  }

  predicate HasColumn(rows: seq<seq<Cell>>, ic: nat) {
    forall r :: 0 <= r < |rows| ==> ic < |rows[r]|
  }

  /** The rows whose cell in column `ic` is a real item code, in order. */
  function FilterRows(rows: seq<seq<Cell>>, ic: nat): (kept: seq<seq<Cell>>)
    requires HasColumn(rows, ic)
    ensures forall k :: 0 <= k < |kept| ==> kept[k] in rows && IsItemCode(kept[k][ic])
    decreases |rows|
  {
    if |rows| == 0 then []
    else
      var init := FilterRows(rows[..|rows| - 1], ic);
      var last := rows[|rows| - 1];
      if IsItemCode(last[ic]) then init + [last] else init
  }

  /** The boolean mask of the filter, by row position. */
  function PassesAt(rows: seq<seq<Cell>>, ic: nat): nat -> bool {
    (i: nat) => i < |rows| && ic < |rows[i]| && IsItemCode(rows[i][ic])
  }

  /** The filter keeps exactly the rows the mask accepts, in order: every kept row
      passes, and every passing row is kept. */
  lemma {:induction false} FilterRowsIsMask(rows: seq<seq<Cell>>, ic: nat)
    requires HasColumn(rows, ic)
    ensures FilterRows(rows, ic) == Pick(rows, Where(|rows|, PassesAt(rows, ic)))
    decreases |rows|
  {
    if |rows| > 0 {
      var n := |rows| - 1;
      var init := rows[..n];
      FilterRowsIsMask(init, ic);
      WhereAgree(n, PassesAt(init, ic), PassesAt(rows, ic));
      PickWhereStep(rows, n, PassesAt(rows, ic));
      PickPrefix(rows, n, Where(n, PassesAt(rows, ic)));
    }
  }

  // Padding and order number.

  /** `x + '-000' if len(x) < 14 else x`: a code of 14 or more characters is kept as it
      is; a shorter one keeps its characters and gains `-000` at its end, so padding does
      not make every code 14 characters long. */
  function PadCode(code: string): (r: string)
    ensures |code| >= CodeLength ==> r == code
    ensures |code| < CodeLength ==> |r| == |code| + 4 && r[|code|..] == "-000"
    ensures StartsWith(r, code)
  {
    if |code| < CodeLength then code + CodePadding else code
  }

  /** `'CHL' + df_cleaned['ORDER REF NO'] + '-24'`; a missing reference stays missing. */
  function OrderNumber(ref: Cell): (r: Cell)
    ensures r.Some? <==> ref.Some?
    ensures r.Some? ==> (|r.value| == |ref.value| + 6
      && r.value[..3] == "CHL" && r.value[3..|r.value| - 3] == ref.value
      && r.value[|r.value| - 3..] == "-24")
  {
    match ref
    case None => None
    case Some(s) => Some(OrderPrefix + s + OrderSuffix)
  }

  // Projection.

  /** Every row of a normalized frame has its material code, and its order number is
      missing or starts with `CHL` and ends with `-24`. */
  lemma NormalizedRowShape(f: Frame)
    requires WellFormed(f) && Normalize(f).Success?
    ensures forall k :: 0 <= k < |Normalize(f).value.rows| ==>
      var row := Normalize(f).value.rows[k];
      && row[1].Some?
      && (row[0].None? || (StartsWith(row[0].value, OrderPrefix)
            && row[0].value[|row[0].value| - 3..] == OrderSuffix))
  {
    var ic, oc := IndexOf(f.columns, ItemCodeColumn).value, IndexOf(f.columns, OrderRefColumn).value;
    NormalizedRows(f, ic, oc, IndexOf(f.columns, QtyColumn).value, IndexOf(f.columns, UnitRateColumn).value);
  }

  /** The position of the first column called `name`. */
  function IndexOf(names: seq<string>, name: string): (r: Option<nat>)
    ensures r.None? <==> name !in names
    ensures r.Some? ==> (r.value < |names| && names[r.value] == name
      && forall j :: 0 <= j < r.value ==> names[j] != name)
  {
    if |names| == 0 then None
    else if names[0] == name then Some(0)
    else match IndexOf(names[1..], name)
      case None => None
      case Some(i) => Some(i + 1)
  }

  /** One output row: order number, padded code, quantity, unit rate. */
  function OutputRow(row: seq<Cell>, ic: nat, oc: nat, qc: nat, uc: nat): (out: seq<Cell>)
    requires ic < |row| && oc < |row| && qc < |row| && uc < |row| && row[ic].Some?
    ensures |out| == |OutputColumns|
  {
    [OrderNumber(row[oc]), Some(PadCode(row[ic].value)), row[qc], row[uc]]
  }

  /** Lines 49-64 on a frame whose header is already clean: fails with the first
      column looked up by name that is absent (ITEM CODE at the filter, ORDER REF NO
      at the derivation, then QTY and UNIT RATE at the projection); otherwise the
      frame has exactly the four output columns. */
  function Normalize(f: Frame): (r: Result<Frame, Failure>)
    requires WellFormed(f)
    ensures ItemCodeColumn !in f.columns ==> r == Failure(MissingColumn(ItemCodeColumn))
    ensures ItemCodeColumn in f.columns && OrderRefColumn !in f.columns ==>
      r == Failure(MissingColumn(OrderRefColumn))
    ensures ItemCodeColumn in f.columns && OrderRefColumn in f.columns && QtyColumn !in f.columns ==>
      r == Failure(MissingColumn(QtyColumn))
    ensures (ItemCodeColumn in f.columns && OrderRefColumn in f.columns && QtyColumn in f.columns
      && UnitRateColumn !in f.columns) ==> r == Failure(MissingColumn(UnitRateColumn))
    ensures r.Success? <==> (ItemCodeColumn in f.columns && OrderRefColumn in f.columns
      && QtyColumn in f.columns && UnitRateColumn in f.columns)
    ensures r.Success? ==> r.value.columns == OutputColumns && WellFormed(r.value)
  {
    match IndexOf(f.columns, ItemCodeColumn)
    case None => Failure(MissingColumn(ItemCodeColumn))
    case Some(ic) =>
      var kept := FilterRows(f.rows, ic);
      match IndexOf(f.columns, OrderRefColumn)
      case None => Failure(MissingColumn(OrderRefColumn))
      case Some(oc) =>
        match IndexOf(f.columns, QtyColumn)
        case None => Failure(MissingColumn(QtyColumn))
        case Some(qc) =>
          match IndexOf(f.columns, UnitRateColumn)
          case None => Failure(MissingColumn(UnitRateColumn))
          case Some(uc) =>
            assert forall k :: 0 <= k < |kept| ==> |kept[k]| == |f.columns|;
            Success(Frame(OutputColumns,
              seq(|kept|, k requires 0 <= k < |kept| => OutputRow(kept[k], ic, oc, qc, uc))))
  }

  /** One output row per row whose ITEM CODE passes the filter, in order: its order
      number is `CHL` + ORDER REF NO + `-24`, its material is the padded item code, and
      QTY and UNIT RATE are carried over unchanged. */
  lemma NormalizedRows(f: Frame, ic: nat, oc: nat, qc: nat, uc: nat)
    requires WellFormed(f)
    requires IndexOf(f.columns, ItemCodeColumn) == Some(ic)
    requires IndexOf(f.columns, OrderRefColumn) == Some(oc)
    requires IndexOf(f.columns, QtyColumn) == Some(qc)
    requires IndexOf(f.columns, UnitRateColumn) == Some(uc)
    ensures var r, pos := Normalize(f), Where(|f.rows|, PassesAt(f.rows, ic));
      r.Success? && |r.value.rows| == |pos|
      && (forall i :: 0 <= i < |f.rows| ==> (i in pos <==> IsItemCode(f.rows[i][ic])))
      && forall k :: 0 <= k < |pos| ==> (pos[k] < |f.rows| &&
           var src := f.rows[pos[k]];
           && IsItemCode(src[ic])
           && r.value.rows[k] == [OrderNumber(src[oc]), Some(PadCode(src[ic].value)), src[qc], src[uc]])
  {
    var pos := Where(|f.rows|, PassesAt(f.rows, ic));
    FilterRowsIsMask(f.rows, ic);
    forall i | 0 <= i < |f.rows| ensures i in pos <==> IsItemCode(f.rows[i][ic]) {
      assert i in pos <==> PassesAt(f.rows, ic)(i);
    }
    forall k | 0 <= k < |pos| ensures IsItemCode(f.rows[pos[k]][ic]) {
      assert PassesAt(f.rows, ic)(pos[k]);
    }
  }
}
