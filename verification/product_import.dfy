/**
 * `create_multiple` of product/orm/product.py: the spreadsheet import. It walks the
 * data rows in order, skips the rows `load_product_infomation` would skip, and
 * upserts a product by code for every other row, get-or-creating its brand. The
 * whole import is one transaction: any error leaves the store as it was.
 */
module ProductImport {
  import opened Common
  import opened Errors
  import opened Schema
  import opened ProductUtils
  import opened ProductOrm

  /** `str(n)` for a whole number. */
  function IntToString(n: int): (s: string)
    ensures |s| >= 1
  {
    if n < 0 then "-" + NatToString(-n) else NatToString(n)
  }

  /** How a non-empty cell is stored in a text column: text as it is, a number as its digits. */
  function TextOf(c: Cell): (s: string)
    requires !c.Blank?
    ensures Filled(c) ==> s != ""
  {
    match c
    case Text(t) => t
    case Number(n) => IntToString(n)
  }

  /**
   * The ValueError Django's `IntegerField.get_prep_value` raises for a value `int()`
   * refuses, naming the field and the value's repr (plain text between single quotes).
   */
  function NotANumber(field: string, c: Cell): (e: Error)
    ensures e.ValueError?
  {
    var shown := match c
      case Text(s) => "'" + s + "'"
      case Number(n) => IntToString(n)
      case Blank => "None";
    ValueError("Field '" + field + "' expected a number but got " + shown + ".")
  }

  /** The values `update_or_create` writes for a row, converted to the column types. */
  datatype ProductFields = ProductFields(
    code: string,
    name: string,
    kind: string,
    originPrice: int,
    salePrice: int,
    description: Option<string>,
    quantityInStock: int,
    brandName: string)

  /**
   * The typed values of a kept row. A text value in an integer column fails its
   * `int()` conversion (a ValueError naming the first such column in the model's
   * field order); a row without a brand name leaves `brand` None,
   * which the NOT NULL foreign key refuses (IntegrityError). A missing description
   * is stored as NULL.
   */
  function RowFields(row: Row): (r: Result<ProductFields>)
    requires |row| == Width && Kept(row)
    ensures r.Err? <==>
      !(row[OriginPriceCol].Number? && row[SalePriceCol].Number? && row[QuantityCol].Number?) || !Filled(row[BrandNameCol])
    ensures r.Ok? ==> r.value.code == TextOf(row[CodeCol]) && r.value.code != "" && r.value.brandName != ""
  {
    if !row[OriginPriceCol].Number? then Err(NotANumber("origin_price", row[OriginPriceCol]))
    else if !row[SalePriceCol].Number? then Err(NotANumber("sale_price", row[SalePriceCol]))
    else if !row[QuantityCol].Number? then Err(NotANumber("quantity_in_stock", row[QuantityCol]))
    else if !Filled(row[BrandNameCol]) then Err(IntegrityError)
    else
      Ok(ProductFields(
        TextOf(row[CodeCol]), TextOf(row[NameCol]), TextOf(row[TypeCol]),
        row[OriginPriceCol].n, row[SalePriceCol].n,
        if row[DescriptionCol].Blank? then None else Some(TextOf(row[DescriptionCol])),
        row[QuantityCol].n, TextOf(row[BrandNameCol])))
  }

  /** The code under which a kept row is upserted. */
  function RowCode(row: Row): (code: string)
    requires |row| == Width && Kept(row)
    ensures code != ""
  {
    TextOf(row[CodeCol])
  }

  /** The stored product with this code, if any. */
  function ProductWithCode(db: Db, code: string): (r: Option<Uid>)
  {
    FirstWhere(db.products, (p: Product) => p.code == code, db.nextId)
  }

  /** The lookup finds a product of that code, or there is none below `nextId`. */
  lemma {:induction false} ProductWithCodeFinds(db: Db, code: string)
    ensures ProductWithCode(db, code).Some? ==>
      ProductWithCode(db, code).value in db.products && db.products[ProductWithCode(db, code).value].code == code
    ensures ProductWithCode(db, code).None? ==>
      forall k :: k in db.products && k < db.nextId ==> db.products[k].code != code
  {
  }

  /** `nextId` is above every product and brand key, so it names no row yet. */
  ghost predicate FreshKeys(db: Db) {
    KeysUnder(db.products, db.nextId) && KeysUnder(db.brands, db.nextId)
  }

  /** The product a row's values describe. */
  function Written(f: ProductFields, brand: Uid, deleted: bool): Product {
    Product(f.code, f.name, Some(f.kind), f.originPrice, f.salePrice, f.description, f.quantityInStock, brand, deleted)
  }

  /** A product holds a row's values, including the name of its brand. */
  ghost predicate Carries(p: Product, f: ProductFields, brands: map<Uid, Brand>) {
    && p.code == f.code && p.name == f.name && p.kind == Some(f.kind)
    && p.originPrice == f.originPrice && p.salePrice == f.salePrice
    && p.description == f.description && p.quantityInStock == f.quantityInStock
    && p.brand in brands && brands[p.brand].name == f.brandName
  }

  /**
   * `update_or_create` by code, once the brand is known: an existing product keeps
   * its uid and its `deleted` flag; otherwise a new one is created, not deleted.
   */
  function UpsertProduct(db: Db, f: ProductFields, brand: Uid): (out: (Db, Uid))
  {
    match ProductWithCode(db, f.code)
    case Some(k) => (db.(products := db.products[k := Written(f, brand, db.products[k].deleted)]), k)
    case None => (db.(products := db.products[db.nextId := Written(f, brand, false)], nextId := db.nextId + 1), db.nextId)
  }

  /** One row of the import: get-or-create the brand, then upsert the product by code. */
  function UpsertRow(db: Db, f: ProductFields): (out: (Db, Uid))
  {
    var got := GetOrCreateBrand(db, f.brandName);
    UpsertProduct(got.0, f, got.1)
  }

  lemma {:induction false} UpsertProductWrites(db: Db, f: ProductFields, brand: Uid)
    requires KeysUnder(db.products, db.nextId)
    ensures UpsertProduct(db, f, brand).1 in UpsertProduct(db, f, brand).0.products
    ensures UpsertProduct(db, f, brand).0.products[UpsertProduct(db, f, brand).1] ==
      Written(f, brand, UpsertProduct(db, f, brand).0.products[UpsertProduct(db, f, brand).1].deleted)
    ensures forall k :: k in db.products ==>
      k in UpsertProduct(db, f, brand).0.products && UpsertProduct(db, f, brand).0.products[k].code == db.products[k].code
    ensures forall k :: k in db.products && db.products[k].code != f.code ==> UpsertProduct(db, f, brand).0.products[k] == db.products[k]
    ensures UpsertProduct(db, f, brand).0 ==
      db.(products := UpsertProduct(db, f, brand).0.products, nextId := UpsertProduct(db, f, brand).0.nextId)
    ensures UpsertProduct(db, f, brand).0.nextId >= db.nextId
    ensures KeysUnder(UpsertProduct(db, f, brand).0.products, UpsertProduct(db, f, brand).0.nextId)
  {
    var found := ProductWithCode(db, f.code);
    ProductWithCodeFinds(db, f.code);
    if found.Some? {
      var k := found.value;
      assert UpsertProduct(db, f, brand).0 == db.(products := db.products[k := Written(f, brand, db.products[k].deleted)]);
    } else {
      assert UpsertProduct(db, f, brand).0 == db.(products := db.products[db.nextId := Written(f, brand, false)], nextId := db.nextId + 1);
    }
  }

  /**
   * The row's product holds the row's values; other products keep their codes, and
   * those with another code keep everything; brands are only added; nothing else
   * changes.
   */
  lemma {:induction false} UpsertRowWrites(db: Db, f: ProductFields)
    requires FreshKeys(db)
    ensures UpsertRow(db, f).1 in UpsertRow(db, f).0.products
    ensures Carries(UpsertRow(db, f).0.products[UpsertRow(db, f).1], f, UpsertRow(db, f).0.brands)
    ensures forall k :: k in db.products ==> k in UpsertRow(db, f).0.products && UpsertRow(db, f).0.products[k].code == db.products[k].code
    ensures forall k :: k in db.products && db.products[k].code != f.code ==> UpsertRow(db, f).0.products[k] == db.products[k]
    ensures forall b :: b in db.brands ==> b in UpsertRow(db, f).0.brands && UpsertRow(db, f).0.brands[b] == db.brands[b]
    ensures UpsertRow(db, f).0 ==
      db.(brands := UpsertRow(db, f).0.brands, products := UpsertRow(db, f).0.products, nextId := UpsertRow(db, f).0.nextId)
    ensures FreshKeys(UpsertRow(db, f).0)
  {
    var got := GetOrCreateBrand(db, f.brandName);
    var db1, brand := got.0, got.1;
    assert db1.products == db.products && db1.nextId >= db.nextId;
    assert KeysUnder(db1.brands, db1.nextId);
    assert forall b :: b in db.brands ==> b in db1.brands && db1.brands[b] == db.brands[b];
    UpsertProductWrites(db1, f, brand);
  }

  lemma {:induction false} UpsertProductKeepsValid(db: Db, f: ProductFields, brand: Uid)
    requires Valid(db) && brand in db.brands
    ensures Valid(UpsertProduct(db, f, brand).0)
  {
    var found := ProductWithCode(db, f.code);
    ProductWithCodeFinds(db, f.code);
    if found.Some? {
      UpsertExistingKeepsValid(db, f, brand, found.value);
    } else {
      UpsertNewKeepsValid(db, f, brand);
    }
  }

  lemma {:induction false} UpsertExistingKeepsValid(db: Db, f: ProductFields, brand: Uid, k: Uid)
    requires Valid(db) && brand in db.brands
    requires ProductWithCode(db, f.code) == Some(k) && k in db.products && db.products[k].code == f.code
    ensures Valid(UpsertProduct(db, f, brand).0)
  {
    var p := Written(f, brand, db.products[k].deleted);
    assert !CodeTakenByOther(db.products, k, p.code) by {
      assert ProductCodesUnique(db.products);
    }
    ReplaceProductKeepsValid(db, k, p);
    assert UpsertProduct(db, f, brand).0 == db.(products := db.products[k := p]);
  }

  lemma {:induction false} UpsertNewKeepsValid(db: Db, f: ProductFields, brand: Uid)
    requires Valid(db) && brand in db.brands
    requires ProductWithCode(db, f.code).None?
    requires forall k :: k in db.products && k < db.nextId ==> db.products[k].code != f.code
    ensures Valid(UpsertProduct(db, f, brand).0)
  {
    var p := Written(f, brand, false);
    assert KeysUnder(db.products, db.nextId);
    assert !CodeTaken(db.products, p.code);
    AddProductKeepsValid(db, p);
    assert UpsertProduct(db, f, brand).0 == db.(products := db.products[db.nextId := p], nextId := db.nextId + 1);
  }

  lemma {:induction false} UpsertRowKeepsValid(db: Db, f: ProductFields)
    requires Valid(db)
    ensures Valid(UpsertRow(db, f).0)
  {
    var got := GetOrCreateBrand(db, f.brandName);
    GetOrCreateBrandKeepsValid(db, f.brandName);
    UpsertProductKeepsValid(got.0, f, got.1);
  }
  /** Every row unpacks into 8 values, and every kept row converts. */
  ghost predicate Importable(rows: seq<Row>) {
    && AllWide(rows)
    && forall i :: 0 <= i < |rows| && Kept(rows[i]) ==> RowFields(rows[i]).Ok?
  }

  /**
   * One row of the import after the rows before it gave `front`. An earlier error
   * stands; a row that does not unpack into 8 values or does not convert fails the
   * import and rolls back to `db`; a skipped row changes nothing.
   */
  function ImportStep(db: Db, front: (Db, Result<seq<Uid>>), row: Row): (out: (Db, Result<seq<Uid>>))
    ensures out.1.Err? ==> out.0 == db || front.1.Err?
  {
    if front.1.Err? then (db, front.1)
    else if |row| != Width then (db, Err(UnpackError(|row|)))
    else if !Kept(row) then front
    else match RowFields(row)
      case Err(e) => (db, Err(e))
      case Ok(f) =>
        var upserted := UpsertRow(front.0, f);
        (upserted.0, Ok(front.1.value + [upserted.1]))
  }

  /**
   * The import of `rows` as a function of the store, row by row. The first error
   * stops the import and rolls everything back.
   */
  function ImportRows(db: Db, rows: seq<Row>): (out: (Db, Result<seq<Uid>>))
    ensures out.1.Err? ==> out.0 == db
    decreases |rows|
  {
    if |rows| == 0 then (db, Ok([]))
    else ImportStep(db, ImportRows(db, rows[..|rows| - 1]), rows[|rows| - 1])
  }

  /** Once a prefix of the rows fails, the import fails with the same error and the store unchanged. */
  lemma {:induction false} ImportErrorSticks(db: Db, rows: seq<Row>, i: nat)
    requires i <= |rows|
    requires ImportRows(db, rows[..i]).1.Err?
    ensures ImportRows(db, rows).0 == db
    ensures ImportRows(db, rows).1 == ImportRows(db, rows[..i]).1
  {
    var j := i;
    while j < |rows|
      invariant i <= j <= |rows|
      invariant ImportRows(db, rows[..j]).1 == ImportRows(db, rows[..i]).1
    {
      var front := ImportRows(db, rows[..j]);
      assert rows[..j + 1][..j] == rows[..j];
      assert ImportRows(db, rows[..j + 1]).1 == ImportStep(db, front, rows[j]).1;
      j := j + 1;
    }
    assert rows[..|rows|] == rows;
  }

  /**
   * `create_multiple`: reads the data rows in order, unpacks each into 8 values,
   * skips a row with a falsy required value, and otherwise upserts its product and
   * appends the product's uid. Any error rolls back the whole import.
   */
  method CreateMultiple(db: Db, sheet: seq<Row>) returns (db': Db, r: Result<seq<Uid>>)
    requires Valid(db)
    ensures db' == ImportRows(db, DataRows(sheet)).0
    ensures r == ImportRows(db, DataRows(sheet)).1
    ensures Valid(db')
  {
    var rows := DataRows(sheet);
    var work := db;
    var uids: seq<Uid> := [];
    var i := 0;
    while i < |rows|
      invariant 0 <= i <= |rows|
      invariant ImportRows(db, rows[..i]).0 == work
      invariant ImportRows(db, rows[..i]).1 == Ok(uids)
    {
      var row := rows[i];
      assert rows[..i + 1][..i] == rows[..i];
      if |row| != Width {
        ImportErrorSticks(db, rows, i + 1);
        return db, Err(UnpackError(|row|));
      }
      if Kept(row) {
        var fields := RowFields(row);
        if fields.Err? {
          ImportErrorSticks(db, rows, i + 1);
          return db, Err(fields.error);
        }
        var upserted := UpsertRow(work, fields.value);
        work := upserted.0;
        uids := uids + [upserted.1];
      }
      i := i + 1;
    }
    assert rows[..i] == rows;
    db', r := work, Ok(uids);
    ImportKeepsValid(db, rows);
  }

  /** The rows are importable iff all but the last are and the last unpacks and, when kept, converts. */
  lemma ImportableSplit(rows: seq<Row>)
    requires |rows| > 0
    ensures Importable(rows) <==>
      var n := |rows| - 1;
      Importable(rows[..n]) && |rows[n]| == Width && (Kept(rows[n]) ==> RowFields(rows[n]).Ok?)
  {
    var n := |rows| - 1;
    assert forall i :: 0 <= i < n ==> rows[..n][i] == rows[i];
  }

  /** One step succeeds iff the rows before it did and the row unpacks and, when kept, converts. */
  lemma ImportStepOkIff(db: Db, front: (Db, Result<seq<Uid>>), row: Row)
    ensures ImportStep(db, front, row).1.Ok? <==> front.1.Ok? && |row| == Width && (Kept(row) ==> RowFields(row).Ok?)
  {
  }

  /** The import succeeds exactly when every row unpacks and every kept row converts. */
  lemma {:induction false} ImportSucceedsIff(db: Db, rows: seq<Row>)
    ensures ImportRows(db, rows).1.Ok? <==> Importable(rows)
    decreases |rows|
  {
    if |rows| > 0 {
      var n := |rows| - 1;
      var front := ImportRows(db, rows[..n]);
      ImportSucceedsIff(db, rows[..n]);
      assert ImportRows(db, rows).1 == ImportStep(db, front, rows[n]).1;
      ImportStepOkIff(db, front, rows[n]);
      ImportableSplit(rows);
    }
  }

  /** The import keeps the store consistent. */
  lemma {:induction false} ImportKeepsValid(db: Db, rows: seq<Row>)
    requires Valid(db)
    ensures Valid(ImportRows(db, rows).0)
    decreases |rows|
  {
    if |rows| > 0 {
      var n := |rows| - 1;
      var front := ImportRows(db, rows[..n]);
      ImportKeepsValid(db, rows[..n]);
      var row := rows[n];
      var out := ImportStep(db, front, row);
      assert ImportRows(db, rows) == out;
      if front.1.Ok? && |row| == Width && Kept(row) && RowFields(row).Ok? {
        assert out.0 == UpsertRow(front.0, RowFields(row).value).0;
        UpsertRowKeepsValid(front.0, RowFields(row).value);
      } else {
        assert out.0 == front.0 || out.0 == db;
      }
    }
  }

  /** The converted values of the kept rows, in row order: the reference for what the import writes. */
  function KeptFields(rows: seq<Row>): (fs: seq<ProductFields>)
    requires Importable(rows)
    ensures |fs| <= |rows|
    decreases |rows|
  {
    if |rows| == 0 then []
    else
      var n := |rows| - 1;
      assert forall i :: 0 <= i < n ==> rows[..n][i] == rows[i];
      KeptFields(rows[..n]) + (if Kept(rows[n]) then [RowFields(rows[n]).value] else [])
  }

  /** The j-th converted value comes from the row at the j-th kept position. */
  lemma {:induction false} KeptFieldsFollowsPositions(rows: seq<Row>)
    requires Importable(rows)
    ensures |KeptFields(rows)| == |KeptPositions(rows)|
    ensures forall j :: 0 <= j < |KeptFields(rows)| ==> KeptFields(rows)[j] == RowFields(rows[KeptPositions(rows)[j]]).value
    decreases |rows|
  {
    if |rows| > 0 {
      var n := |rows| - 1;
      ImportableSplit(rows);
      KeptFieldsFollowsPositions(rows[..n]);
      var front, pos := KeptFields(rows[..n]), KeptPositions(rows[..n]);
      assert KeptFields(rows) == front + (if Kept(rows[n]) then [RowFields(rows[n]).value] else []);
      assert KeptPositions(rows) == pos + (if Kept(rows[n]) then [n] else []);
      forall j | 0 <= j < |front|
        ensures KeptFields(rows)[j] == RowFields(rows[KeptPositions(rows)[j]]).value
      {
        assert KeptPositions(rows)[j] == pos[j] && rows[..n][pos[j]] == rows[pos[j]];
      }
    }
  }

  /** No later value in `fs` has the code of the j-th. */
  ghost predicate LastCode(fs: seq<ProductFields>, j: nat)
    requires j < |fs|
  {
    forall j' :: j < j' < |fs| ==> fs[j'].code != fs[j].code
  }

  /** The uids name stored products of the values' codes, one uid per value. */
  ghost predicate Names(products: map<Uid, Product>, uids: seq<Uid>, fs: seq<ProductFields>) {
    && |uids| == |fs|
    && forall j :: 0 <= j < |uids| ==> uids[j] in products && products[uids[j]].code == fs[j].code
  }

  /** The product of the last value of each code holds that value. */
  ghost predicate Wins(db: Db, uids: seq<Uid>, fs: seq<ProductFields>)
    requires Names(db.products, uids, fs)
  {
    forall j :: 0 <= j < |uids| && LastCode(fs, j) ==> Carries(db.products[uids[j]], fs[j], db.brands)
  }

  lemma {:induction false} NamesStep(db: Db, uids: seq<Uid>, fs: seq<ProductFields>, f: ProductFields)
    requires FreshKeys(db) && Names(db.products, uids, fs)
    ensures Names(UpsertRow(db, f).0.products, uids + [UpsertRow(db, f).1], fs + [f])
  {
    var out := UpsertRow(db, f);
    UpsertRowWrites(db, f);
    var uids', fs' := uids + [out.1], fs + [f];
    forall j | 0 <= j < |uids'|
      ensures uids'[j] in out.0.products && out.0.products[uids'[j]].code == fs'[j].code
    {
      if j < |uids| {
        assert uids'[j] == uids[j] && fs'[j] == fs[j];
      }
    }
  }

  lemma {:induction false} WinsStep(db: Db, uids: seq<Uid>, fs: seq<ProductFields>, f: ProductFields)
    requires FreshKeys(db) && Names(db.products, uids, fs) && Wins(db, uids, fs)
    ensures Names(UpsertRow(db, f).0.products, uids + [UpsertRow(db, f).1], fs + [f])
    ensures Wins(UpsertRow(db, f).0, uids + [UpsertRow(db, f).1], fs + [f])
  {
    NamesStep(db, uids, fs, f);
    UpsertRowWrites(db, f);
    WinsAfterWrite(db, UpsertRow(db, f).0, uids, fs, f, UpsertRow(db, f).1);
  }

  /** Writing `f` to the product `u` keeps every other code's last value in place. */
  lemma {:induction false} WinsAfterWrite(db: Db, db': Db, uids: seq<Uid>, fs: seq<ProductFields>, f: ProductFields, u: Uid)
    requires Names(db.products, uids, fs) && Wins(db, uids, fs)
    requires Names(db'.products, uids + [u], fs + [f])
    requires u in db'.products && Carries(db'.products[u], f, db'.brands)
    requires forall k :: k in db.products && db.products[k].code != f.code ==> k in db'.products && db'.products[k] == db.products[k]
    requires forall b :: b in db.brands ==> b in db'.brands && db'.brands[b] == db.brands[b]
    ensures Wins(db', uids + [u], fs + [f])
  {
    var uids', fs' := uids + [u], fs + [f];
    forall j | 0 <= j < |uids'| && LastCode(fs', j)
      ensures Carries(db'.products[uids'[j]], fs'[j], db'.brands)
    {
      if j < |uids| {
        assert uids'[j] == uids[j] && fs'[j] == fs[j];
        assert fs'[|fs|] == f;
        forall j' | j < j' < |fs| ensures fs[j'].code != fs[j].code {
          assert fs'[j'] == fs[j'];
        }
        assert LastCode(fs, j);
        var p := db.products[uids[j]];
        assert p.code != f.code;
        assert db'.products[uids[j]] == p;
        assert p.brand in db.brands;
      }
    }
  }

  /** Facts about the last row of a successful import, for the inductive proofs below. */
  lemma {:induction false} ImportLastRow(db: Db, rows: seq<Row>)
    requires Importable(rows) && |rows| > 0
    ensures Importable(rows[..|rows| - 1])
    ensures ImportRows(db, rows[..|rows| - 1]).1.Ok? && ImportRows(db, rows).1.Ok?
    ensures !Kept(rows[|rows| - 1]) ==>
      && ImportRows(db, rows).0 == ImportRows(db, rows[..|rows| - 1]).0
      && ImportRows(db, rows).1 == ImportRows(db, rows[..|rows| - 1]).1
      && KeptFields(rows) == KeptFields(rows[..|rows| - 1])
    ensures Kept(rows[|rows| - 1]) ==>
      && ImportRows(db, rows).0 == UpsertRow(ImportRows(db, rows[..|rows| - 1]).0, RowFields(rows[|rows| - 1]).value).0
      && ImportRows(db, rows).1.value ==
           ImportRows(db, rows[..|rows| - 1]).1.value + [UpsertRow(ImportRows(db, rows[..|rows| - 1]).0, RowFields(rows[|rows| - 1]).value).1]
      && KeptFields(rows) == KeptFields(rows[..|rows| - 1]) + [RowFields(rows[|rows| - 1]).value]
  {
    var n := |rows| - 1;
    assert forall i :: 0 <= i < n ==> rows[..n][i] == rows[i];
    assert Importable(rows[..n]);
    ImportSucceedsIff(db, rows[..n]);
    ImportSucceedsIff(db, rows);
  }

  /** An import keeps `nextId` above every product and brand key. */
  lemma {:induction false} ImportKeepsFresh(db: Db, rows: seq<Row>)
    requires FreshKeys(db)
    ensures FreshKeys(ImportRows(db, rows).0)
    decreases |rows|
  {
    if |rows| > 0 {
      var n := |rows| - 1;
      var front := ImportRows(db, rows[..n]);
      ImportKeepsFresh(db, rows[..n]);
      var row := rows[n];
      if front.1.Ok? && |row| == Width && Kept(row) && RowFields(row).Ok? {
        UpsertRowWrites(front.0, RowFields(row).value);
        assert ImportRows(db, rows).0 == UpsertRow(front.0, RowFields(row).value).0;
      } else {
        assert ImportRows(db, rows).0 == front.0 || ImportRows(db, rows).0 == db;
      }
    }
  }

  /** A successful import writes what `KeptFields` describes, one uid per kept row. */
  lemma {:induction false} ImportHolds(db: Db, rows: seq<Row>)
    requires FreshKeys(db) && Importable(rows)
    ensures ImportRows(db, rows).1.Ok?
    ensures Names(ImportRows(db, rows).0.products, ImportRows(db, rows).1.value, KeptFields(rows))
    ensures Wins(ImportRows(db, rows).0, ImportRows(db, rows).1.value, KeptFields(rows))
    decreases |rows|
  {
    ImportSucceedsIff(db, rows);
    if |rows| > 0 {
      var n := |rows| - 1;
      ImportLastRow(db, rows);
      ImportHolds(db, rows[..n]);
      ImportKeepsFresh(db, rows[..n]);
      HoldsAfterLastRow(db, rows);
    }
  }

  lemma {:induction false} HoldsAfterLastRow(db: Db, rows: seq<Row>)
    requires Importable(rows) && |rows| > 0
    requires Importable(rows[..|rows| - 1]) && ImportRows(db, rows[..|rows| - 1]).1.Ok?
    requires FreshKeys(ImportRows(db, rows[..|rows| - 1]).0)
    requires Names(ImportRows(db, rows[..|rows| - 1]).0.products, ImportRows(db, rows[..|rows| - 1]).1.value, KeptFields(rows[..|rows| - 1]))
    requires Wins(ImportRows(db, rows[..|rows| - 1]).0, ImportRows(db, rows[..|rows| - 1]).1.value, KeptFields(rows[..|rows| - 1]))
    ensures ImportRows(db, rows).1.Ok?
    ensures Names(ImportRows(db, rows).0.products, ImportRows(db, rows).1.value, KeptFields(rows))
    ensures Wins(ImportRows(db, rows).0, ImportRows(db, rows).1.value, KeptFields(rows))
  {
    var n := |rows| - 1;
    ImportLastRow(db, rows);
    var front := ImportRows(db, rows[..n]);
    var prev, uids, fs := front.0, front.1.value, KeptFields(rows[..n]);
    if Kept(rows[n]) {
      var f := RowFields(rows[n]).value;
      WinsStep(prev, uids, fs, f);
      var out := UpsertRow(prev, f);
      assert ImportRows(db, rows).0 == out.0;
      assert ImportRows(db, rows).1.value == uids + [out.1];
      assert KeptFields(rows) == fs + [f];
    }
  }

  /**
   * When every row is importable the import succeeds with one uid per kept row, in
   * row order: the j-th uid is a stored product carrying the code of the j-th kept row.
   */
  lemma {:induction false} ImportFollowsRows(db: Db, rows: seq<Row>)
    requires FreshKeys(db) && Importable(rows)
    ensures ImportRows(db, rows).1.Ok?
    ensures |ImportRows(db, rows).1.value| == |KeptPositions(rows)|
    ensures forall j :: 0 <= j < |KeptPositions(rows)| ==>
      && ImportRows(db, rows).1.value[j] in ImportRows(db, rows).0.products
      && ImportRows(db, rows).0.products[ImportRows(db, rows).1.value[j]].code == RowCode(rows[KeptPositions(rows)[j]])
  {
    ImportHolds(db, rows);
    KeptFieldsFollowsPositions(rows);
  }

  /** The last row of a given code decides the product's values. */
  ghost predicate LastOfCode(rows: seq<Row>, j: nat)
    requires AllWide(rows) && j < |KeptPositions(rows)|
  {
    var pos := KeptPositions(rows);
    forall j' :: j < j' < |pos| ==> RowCode(rows[pos[j']]) != RowCode(rows[pos[j]])
  }

  /**
   * Upsert by code: for the last kept row of each code, the product it names holds
   * that row's values; earlier rows with the same code are overwritten.
   */
  lemma {:induction false} ImportLastRowWins(db: Db, rows: seq<Row>)
    requires FreshKeys(db) && Importable(rows)
    ensures ImportRows(db, rows).1.Ok?
    ensures |ImportRows(db, rows).1.value| == |KeptPositions(rows)|
    ensures forall j :: 0 <= j < |KeptPositions(rows)| && LastOfCode(rows, j) ==>
      && ImportRows(db, rows).1.value[j] in ImportRows(db, rows).0.products
      && Carries(ImportRows(db, rows).0.products[ImportRows(db, rows).1.value[j]],
                 RowFields(rows[KeptPositions(rows)[j]]).value, ImportRows(db, rows).0.brands)
  {
    ImportHolds(db, rows);
    KeptFieldsFollowsPositions(rows);
    var fs, pos := KeptFields(rows), KeptPositions(rows);
    forall j | 0 <= j < |pos| && LastOfCode(rows, j)
      ensures LastCode(fs, j)
    {
      forall j' | j < j' < |fs| ensures fs[j'].code != fs[j].code {
        assert RowCode(rows[pos[j']]) != RowCode(rows[pos[j]]);
      }
    }
  }

  /** The import only adds brands, keeps every product, and touches no other table. */
  ghost predicate Extends(db: Db, db': Db, fs: seq<ProductFields>) {
    && db' == db.(brands := db'.brands, products := db'.products, nextId := db'.nextId)
    && db.products.Keys <= db'.products.Keys
    && (forall b :: b in db.brands ==> b in db'.brands && db'.brands[b] == db.brands[b])
    && (forall k :: k in db.products && (forall j :: 0 <= j < |fs| ==> fs[j].code != db.products[k].code) ==>
          db'.products[k] == db.products[k])
  }

  lemma {:induction false} ExtendsStep(db: Db, prev: Db, fs: seq<ProductFields>, f: ProductFields)
    requires FreshKeys(prev) && Extends(db, prev, fs)
    ensures Extends(db, UpsertRow(prev, f).0, fs + [f])
  {
    var next := UpsertRow(prev, f).0;
    UpsertRowWrites(prev, f);
    var fs' := fs + [f];
    forall k | k in db.products && (forall j :: 0 <= j < |fs'| ==> fs'[j].code != db.products[k].code)
      ensures next.products[k] == db.products[k]
    {
      assert fs'[|fs|] == f;
      forall j | 0 <= j < |fs| ensures fs[j].code != db.products[k].code {
        assert fs'[j] == fs[j];
      }
    }
  }

  /** The import extends the store in the sense of `Extends`, for the values of the kept rows. */
  lemma {:induction false} ImportExtends(db: Db, rows: seq<Row>)
    requires FreshKeys(db) && Importable(rows)
    ensures ImportRows(db, rows).1.Ok?
    ensures Extends(db, ImportRows(db, rows).0, KeptFields(rows))
    decreases |rows|
  {
    ImportSucceedsIff(db, rows);
    if |rows| > 0 {
      var n := |rows| - 1;
      ImportLastRow(db, rows);
      ImportExtends(db, rows[..n]);
      ImportKeepsFresh(db, rows[..n]);
      var front := ImportRows(db, rows[..n]);
      if Kept(rows[n]) {
        ExtendsStep(db, front.0, KeptFields(rows[..n]), RowFields(rows[n]).value);
      }
    }
  }

  /**
   * Products whose code no kept row names are left as they were, tables other than
   * brands and products are untouched, and no product or brand disappears.
   */
  lemma {:induction false} ImportLeavesOthers(db: Db, rows: seq<Row>)
    requires FreshKeys(db) && Importable(rows)
    ensures ImportRows(db, rows).1.Ok?
    ensures ImportRows(db, rows).0 ==
      db.(brands := ImportRows(db, rows).0.brands, products := ImportRows(db, rows).0.products, nextId := ImportRows(db, rows).0.nextId)
    ensures db.products.Keys <= ImportRows(db, rows).0.products.Keys
    ensures forall b :: b in db.brands ==> b in ImportRows(db, rows).0.brands && ImportRows(db, rows).0.brands[b] == db.brands[b]
    ensures forall k :: (k in db.products && forall i :: 0 <= i < |rows| && Kept(rows[i]) ==> RowCode(rows[i]) != db.products[k].code) ==>
      ImportRows(db, rows).0.products[k] == db.products[k]
  {
    ImportExtends(db, rows);
    KeptFieldsFollowsPositions(rows);
    var fs, pos := KeptFields(rows), KeptPositions(rows);
    forall k | k in db.products && forall i :: 0 <= i < |rows| && Kept(rows[i]) ==> RowCode(rows[i]) != db.products[k].code
      ensures forall j :: 0 <= j < |fs| ==> fs[j].code != db.products[k].code
    {
      forall j | 0 <= j < |fs| ensures fs[j].code != db.products[k].code {
        assert RowCode(rows[pos[j]]) != db.products[k].code;
      }
    }
  }

  /**
   * Two kept rows with the same code name the same product: the import never
   * duplicates a code.
   */
  lemma {:induction false} SameCodeSameProduct(db: Db, rows: seq<Row>)
    requires Valid(db) && Importable(rows)
    ensures ImportRows(db, rows).1.Ok?
    ensures |ImportRows(db, rows).1.value| == |KeptPositions(rows)|
    ensures forall i, j :: (0 <= i < |KeptPositions(rows)| && 0 <= j < |KeptPositions(rows)|
      && RowCode(rows[KeptPositions(rows)[i]]) == RowCode(rows[KeptPositions(rows)[j]])) ==>
      ImportRows(db, rows).1.value[i] == ImportRows(db, rows).1.value[j]
  {
    ImportFollowsRows(db, rows);
    ImportKeepsValid(db, rows);
  }

  /**
   * The import and `load_product_infomation` agree: one product per record the
   * loader returns, in the same order, with the record's code.
   */
  lemma {:induction false} ImportMatchesLoad(db: Db, rows: seq<Row>)
    requires FreshKeys(db) && Importable(rows)
    ensures ImportRows(db, rows).1.Ok?
    ensures |ImportRows(db, rows).1.value| == |KeptData(rows)|
    ensures forall j :: 0 <= j < |KeptData(rows)| ==>
      && ImportRows(db, rows).1.value[j] in ImportRows(db, rows).0.products
      && ImportRows(db, rows).0.products[ImportRows(db, rows).1.value[j]].code == TextOf(KeptData(rows)[j].code)
  {
    ImportFollowsRows(db, rows);
    KeptDataFollowsPositions(rows);
  }
}
