/**
 * The spreadsheet side of the product catalogue (product/utils.py): the header row of
 * the import template and `load_product_infomation`, which turns the data rows of a
 * sheet into one record per usable row. A sheet is a sequence of rows; a row is the
 * sequence of its cell values, as `iter_rows(values_only=True)` yields them. Reading
 * the workbook file itself is not part of this model.
 */
module ProductUtils {
  import opened Common
  import opened Errors

  /** A cell value: empty, text, or a whole number. */
  datatype Cell = Blank | Text(s: string) | Number(n: int)

  type Row = seq<Cell>

  /** Python truthiness of a cell value: `None`, `""` and `0` are falsy. */
  predicate Filled(c: Cell) {
    match c
    case Blank => false
    case Text(s) => s != ""
    case Number(n) => n != 0
  }

  /** `PRODUCT_HEADERS`, the first row of the import template. */
  const ProductHeaders: seq<string> := [
    "Tên sản phẩm",
    "Mã sản phẩm",
    "Giá gốc",
    "Giá bán",
    "Thương hiệu",
    "Phân loại",
    "Mô tả",
    "Số lượng trong kho"
  ]

  /** Every data row is unpacked into this many columns. */
  const Width: nat := 8

  function DigitChar(d: nat): char
    requires d < 10
  {
    "0123456789"[d]
  }

  /** The decimal digits of a natural number. */
  function NatToString(n: nat): (s: string)
    ensures |s| >= 1
    decreases n
  {
    if n < 10 then [DigitChar(n)] else NatToString(n / 10) + [DigitChar(n % 10)]
  }

  /**
   * The ValueError of unpacking a row of `n` values into the 8 names of the loop
   * header, with the message Python gives.
   */
  function UnpackError(n: nat): (e: Error)
    requires n != Width
    ensures e.ValueError?
  {
    if n < Width then ValueError("not enough values to unpack (expected 8, got " + NatToString(n) + ")")
    else ValueError("too many values to unpack (expected 8)")
  }

  // Column positions, in the order of the unpacking and of the headers.
  const NameCol: nat := 0
  const CodeCol: nat := 1
  const OriginPriceCol: nat := 2
  const SalePriceCol: nat := 3
  const BrandNameCol: nat := 4
  const TypeCol: nat := 5
  const DescriptionCol: nat := 6
  const QuantityCol: nat := 7

  /** One header per unpacked column, each naming a different column. */
  lemma {:induction false} HeadersMatchColumns()
    ensures |ProductHeaders| == Width
    ensures ProductHeaders[CodeCol] == "Mã sản phẩm" && ProductHeaders[SalePriceCol] == "Giá bán"
    ensures forall i, j :: 0 <= i < j < |ProductHeaders| ==> ProductHeaders[i] != ProductHeaders[j]
  {
    var h := ProductHeaders;
    forall i, j | 0 <= i < j < |h| ensures h[i] != h[j] {
      if |h[i]| == |h[j]| {
        assert h[i][0] != h[j][0] || h[i][|h[i]| - 1] != h[j][|h[j]| - 1];
      }
    }
  }

  /** A row is kept iff name, code, both prices, type and stock are all truthy; brand and description may be empty. */
  predicate Kept(row: Row)
    requires |row| == Width
  {
    && Filled(row[NameCol]) && Filled(row[CodeCol])
    && Filled(row[OriginPriceCol]) && Filled(row[SalePriceCol])
    && Filled(row[TypeCol]) && Filled(row[QuantityCol])
  }

  /** The dict built for a kept row. */
  datatype ProductData = ProductData(
    name: Cell,
    code: Cell,
    originPrice: Cell,
    salePrice: Cell,
    brandName: Cell,
    kind: Cell,
    description: Cell,
    quantityInStock: Cell)

  /** The row's values as they are, except that a falsy description becomes "". */
  function ToData(row: Row): (d: ProductData)
    requires |row| == Width
  {
    ProductData(row[NameCol], row[CodeCol], row[OriginPriceCol], row[SalePriceCol],
                row[BrandNameCol], row[TypeCol],
                if Filled(row[DescriptionCol]) then row[DescriptionCol] else Text(""),
                row[QuantityCol])
  }

  /** The dict read back as a row, in column order. */
  function ToRow(d: ProductData): (row: Row)
    ensures |row| == Width
  {
    [d.name, d.code, d.originPrice, d.salePrice, d.brandName, d.kind, d.description, d.quantityInStock]
  }

  /**
   * The dict carries the row unchanged, column for column, except for a falsy
   * description, which is the only value replaced.
   */
  lemma {:induction false} ToDataRoundTrip(row: Row)
    requires |row| == Width
    ensures Filled(row[DescriptionCol]) ==> ToRow(ToData(row)) == row
    ensures !Filled(row[DescriptionCol]) ==> ToRow(ToData(row)) == row[DescriptionCol := Text("")]
    ensures ToData(row).description != Blank && (ToData(row).description.Number? ==> Filled(ToData(row).description))
  {
    var r := ToRow(ToData(row));
    assert forall i :: 0 <= i < Width && i != DescriptionCol ==> r[i] == row[i];
  }

  predicate AllWide(rows: seq<Row>) {
    forall i :: 0 <= i < |rows| ==> |rows[i]| == Width
  }

  /** `iter_rows(min_row=2)`: every row but the first (the header row). */
  function DataRows(sheet: seq<Row>): (rows: seq<Row>)
    ensures |sheet| > 0 ==> rows == sheet[1..]
    ensures |rows| == if |sheet| == 0 then 0 else |sheet| - 1
  {
    if |sheet| == 0 then [] else sheet[1..]
  }

  /** The positions of the kept rows, in row order: the reference for which rows yield a record. */
  function KeptPositions(rows: seq<Row>): (pos: seq<nat>)
    requires AllWide(rows)
    ensures forall j :: 0 <= j < |pos| ==> pos[j] < |rows| && Kept(rows[pos[j]])
    ensures forall j, j' :: 0 <= j < j' < |pos| ==> pos[j] < pos[j']
    ensures forall i :: 0 <= i < |rows| && Kept(rows[i]) ==> i in pos
    decreases |rows|
  {
    if |rows| == 0 then []
    else
      var n := |rows| - 1;
      var front := KeptPositions(rows[..n]);
      assert forall j :: 0 <= j < |front| ==> rows[..n][front[j]] == rows[front[j]];
      front + (if Kept(rows[n]) then [n] else [])
  }

  /** The records of the kept rows, built one row at a time. */
  function KeptData(rows: seq<Row>): (ds: seq<ProductData>)
    requires AllWide(rows)
    ensures |ds| <= |rows|
    ensures forall j :: 0 <= j < |ds| ==>
      Filled(ds[j].name) && Filled(ds[j].code) && Filled(ds[j].originPrice)
      && Filled(ds[j].salePrice) && Filled(ds[j].kind) && Filled(ds[j].quantityInStock)
    decreases |rows|
  {
    if |rows| == 0 then []
    else
      var n := |rows| - 1;
      KeptData(rows[..n]) + (if Kept(rows[n]) then [ToData(rows[n])] else [])
  }

  /**
   * One record per kept row, in row order: the j-th record is built from the row at
   * the j-th kept position.
   */
  lemma {:induction false} KeptDataFollowsPositions(rows: seq<Row>)
    requires AllWide(rows)
    ensures |KeptData(rows)| == |KeptPositions(rows)|
    ensures forall j :: 0 <= j < |KeptData(rows)| ==> KeptData(rows)[j] == ToData(rows[KeptPositions(rows)[j]])
    decreases |rows|
  {
    if |rows| > 0 {
      var n := |rows| - 1;
      KeptDataFollowsPositions(rows[..n]);
      assert forall i :: 0 <= i < n ==> rows[..n][i] == rows[i];
    }
  }

  /** A sheet whose rows are all dropped yields no record. */
  lemma {:induction false} NothingKeptNoData(rows: seq<Row>)
    requires AllWide(rows)
    requires forall i :: 0 <= i < |rows| ==> !Kept(rows[i])
    ensures KeptData(rows) == []
  {
    KeptDataFollowsPositions(rows);
    NoKeptRowNoPosition(rows);
  }

  /** A sheet whose rows are all kept yields one record per row. */
  lemma {:induction false} AllKeptAllData(rows: seq<Row>)
    requires AllWide(rows)
    requires forall i :: 0 <= i < |rows| ==> Kept(rows[i])
    ensures |KeptData(rows)| == |rows|
  {
    KeptDataFollowsPositions(rows);
    PositionsCoverAll(KeptPositions(rows), |rows|);
  }

  lemma {:induction false} NoKeptRowNoPosition(rows: seq<Row>)
    requires AllWide(rows)
    requires forall i :: 0 <= i < |rows| ==> !Kept(rows[i])
    ensures KeptPositions(rows) == []
    decreases |rows|
  {
    if |rows| > 0 {
      var n := |rows| - 1;
      assert forall i :: 0 <= i < n ==> rows[..n][i] == rows[i];
      NoKeptRowNoPosition(rows[..n]);
    }
  }

  /** A strictly increasing list of positions below n that contains every position below n has length n. */
  lemma {:induction false} PositionsCoverAll(pos: seq<nat>, n: nat)
    requires forall j :: 0 <= j < |pos| ==> pos[j] < n
    requires forall j, j' :: 0 <= j < j' < |pos| ==> pos[j] < pos[j']
    requires forall i :: 0 <= i < n ==> i in pos
    ensures |pos| == n
  {
    var j := 0;
    while j < |pos|
      invariant 0 <= j <= |pos|
      invariant forall t :: 0 <= t < j ==> pos[t] == t
    {
      assert pos[j] >= j by {
        if j > 0 { assert pos[j - 1] < pos[j]; }
      }
      assert j in pos;
      var t :| 0 <= t < |pos| && pos[t] == j;
      assert t >= j;
      assert t <= j;
      j := j + 1;
    }
    if |pos| > 0 {
      assert pos[|pos| - 1] == |pos| - 1;
    }
    if n > 0 {
      assert n - 1 in pos;
      var t :| 0 <= t < |pos| && pos[t] == n - 1;
      assert t == n - 1;
    }
  }

  /**
   * `load_product_infomation`: every data row must unpack into exactly 8 values
   * (Python raises ValueError otherwise); rows with a falsy required value are
   * skipped; each other row yields a record, appended in row order.
   */
  method LoadProductInformation(sheet: seq<Row>) returns (r: Result<seq<ProductData>>)
    ensures r.Ok? <==> AllWide(DataRows(sheet))
    ensures r.Ok? ==> r.value == KeptData(DataRows(sheet))
    ensures r.Err? ==> r.error.ValueError?
  {
    var rows := DataRows(sheet);
    var products: seq<ProductData> := [];
    var i := 0;
    while i < |rows|
      invariant 0 <= i <= |rows|
      invariant AllWide(rows[..i])
      invariant products == KeptData(rows[..i])
    {
      var row := rows[i];
      if |row| != Width {
        return Err(UnpackError(|row|));
      }
      assert rows[..i + 1][..i] == rows[..i];
      if Kept(row) {
        products := products + [ToData(row)];
      }
      i := i + 1;
    }
    assert rows[..i] == rows;
    r := Ok(products);
  }
}
