/** The whole catalogue in four queries, against the load of one product at a time. */
module CatalogLoad {
  import opened Wrappers
  import opened Sorting

  datatype ProductRow = ProductRow(id: int, unitId: int, columns: string)
  datatype UnitRow = UnitRow(id: int, scale: nat)
  datatype BarcodeRow = BarcodeRow(id: int, productId: int, code: int, active: bool)
  datatype HistoryRow = HistoryRow(id: int, productId: int, recordedAt: int, price: int)

  /** Tables in the order a scan reads them; units are looked up by primary key. */
  datatype Tables = Tables(
    products: seq<ProductRow>, units: map<int, UnitRow>, barcodes: seq<BarcodeRow>, history: seq<HistoryRow>)

  datatype Product = Product(row: ProductRow, unit: UnitRow, barcodes: seq<BarcodeRow>, history: seq<HistoryRow>)

  datatype LoadError = UnitMissing

  // ---------- one product ----------

  predicate ByTime(a: HistoryRow, b: HistoryRow) {
    a.recordedAt <= b.recordedAt
  }

  predicate ByProductAndTime(a: HistoryRow, b: HistoryRow) {
    a.productId < b.productId || (a.productId == b.productId && a.recordedAt <= b.recordedAt)
  }

  function Build(row: ProductRow, unit: Option<UnitRow>, barcodes: seq<BarcodeRow>, history: seq<HistoryRow>):
    Result<Product, LoadError>
  {
    if unit.None? then Err(UnitMissing) else Ok(Product(row, unit.value, barcodes, history))
  }

  function UnitOf(t: Tables, id: int): Option<UnitRow> {
    if id in t.units then Some(t.units[id]) else None
  }

  /** The rows of one product, in table order. */
  function BarcodesOf(rows: seq<BarcodeRow>, product: int): seq<BarcodeRow> {
    Filter(rows, (b: BarcodeRow) => b.productId == product)
  }

  function HistoryOf(rows: seq<HistoryRow>, product: int): seq<HistoryRow> {
    Filter(rows, (h: HistoryRow) => h.productId == product)
  }

  /** `restore`: the barcodes of the product, and its prices ordered by time. */
  function Restore(t: Tables, row: ProductRow): Result<Product, LoadError> {
    Build(row, UnitOf(t, row.unitId), BarcodesOf(t.barcodes, row.id), Sort(HistoryOf(t.history, row.id), ByTime))
  }

  /** `restore` over product rows: all of them, or the error of the first that fails. */
  function RestoreAll(t: Tables, rows: seq<ProductRow>): Result<seq<Product>, LoadError> {
    if rows == [] then Ok([])
    else
      match RestoreAll(t, rows[..|rows| - 1])
      case Err(e) => Err(e)
      case Ok(done) =>
        match Restore(t, rows[|rows| - 1])
        case Err(e) => Err(e)
        case Ok(p) => Ok(done + [p])
  }

  // ---------- grouping ----------

  /** The rows with a key, in order. */
  function Bucket<T>(rows: seq<T>, key: T -> int, k: int): seq<T> {
    if rows == [] then []
    else
      var last := rows[|rows| - 1];
      Bucket(rows[..|rows| - 1], key, k) + if key(last) == k then [last] else []
  }

  /** `groupBy`: one pass that appends each row to the bucket of its key; a key without rows has no bucket. */
  method GroupBy<T>(rows: seq<T>, key: T -> int) returns (grouped: map<int, seq<T>>)
    ensures forall k :: (if k in grouped then grouped[k] else []) == Bucket(rows, key, k)
    ensures forall k :: k in grouped ==> grouped[k] != []
  {
    grouped := map[];
    for i := 0 to |rows|
      invariant forall k :: (if k in grouped then grouped[k] else []) == Bucket(rows[..i], key, k)
      invariant forall k :: k in grouped ==> grouped[k] != []
    {
      var row := rows[i];
      assert rows[..i + 1][..i] == rows[..i];
      if key(row) in grouped {
        grouped := grouped[key(row) := grouped[key(row)] + [row]];
      } else {
        grouped := grouped[key(row) := [row]];
      }
    }
    assert rows[..|rows|] == rows;
  }

  lemma {:induction false} FilterOfLast<T(!new)>(rows: seq<T>, last: T, keep: T -> bool)
    ensures Filter(rows + [last], keep) == Filter(rows, keep) + if keep(last) then [last] else []
  {
    if rows == [] {
      assert [] + [last] == [last] && [last][1..] == [];
    } else {
      assert (rows + [last])[1..] == rows[1..] + [last];
      FilterOfLast(rows[1..], last, keep);
    }
  }

  lemma {:induction false} BucketIsFilter<T(!new)>(rows: seq<T>, key: T -> int, k: int, keep: T -> bool)
    requires forall row :: row in rows ==> (keep(row) <==> key(row) == k)
    ensures Bucket(rows, key, k) == Filter(rows, keep)
  {
    if rows != [] {
      var rest, last := rows[..|rows| - 1], rows[|rows| - 1];
      BucketIsFilter(rest, key, k, keep);
      FilterOfLast(rest, last, keep);
      assert rows == rest + [last];
    }
  }

  function BarcodeProduct(b: BarcodeRow): int { b.productId }

  function HistoryProduct(h: HistoryRow): int { h.productId }

  /** Sorting everything by product and time, then taking a product's bucket, is sorting that product's rows by time. */
  lemma HistoryAgrees(rows: seq<HistoryRow>, product: int)
    ensures Bucket(Sort(rows, ByProductAndTime), HistoryProduct, product) == Sort(HistoryOf(rows, product), ByTime)
  {
    var keep := (h: HistoryRow) => h.productId == product;
    BucketIsFilter(Sort(rows, ByProductAndTime), HistoryProduct, product, keep);
    FilterOfSort(rows, ByProductAndTime, keep);
    FilterMembers(rows, keep);
    SortAgrees(Filter(rows, keep), ByProductAndTime, ByTime);
  }

  lemma BarcodesAgree(rows: seq<BarcodeRow>, product: int)
    ensures Bucket(rows, BarcodeProduct, product) == BarcodesOf(rows, product)
  {
    BucketIsFilter(rows, BarcodeProduct, product, (b: BarcodeRow) => b.productId == product);
  }

  /** The batched load is the load of each product, row by row, order and errors included. */
  method FindAllProducts(t: Tables) returns (r: Result<seq<Product>, LoadError>)
    ensures r == RestoreAll(t, t.products)
  {
    if |t.products| == 0 {
      return Ok([]);
    }
    var barcodes := GroupBy(t.barcodes, BarcodeProduct);
    var history := GroupBy(Sort(t.history, ByProductAndTime), HistoryProduct);
    var done: seq<Product> := [];
    for i := 0 to |t.products|
      invariant RestoreAll(t, t.products[..i]) == Ok(done)
    {
      var row := t.products[i];
      assert t.products[..i + 1][..i] == t.products[..i];
      BarcodesAgree(t.barcodes, row.id);
      HistoryAgrees(t.history, row.id);
      var built := Build(row, UnitOf(t, row.unitId),
                         if row.id in barcodes then barcodes[row.id] else [],
                         if row.id in history then history[row.id] else []);
      assert built == Restore(t, row);
      if built.Err? {
        RestoreStops(t, t.products, i + 1);
        return Err(built.error);
      }
      done := done + [built.value];
    }
    assert t.products[..|t.products|] == t.products;
    return Ok(done);
  }

  /** Once a row fails, so does the whole load, with that row's error. */
  lemma {:induction false} RestoreStops(t: Tables, rows: seq<ProductRow>, i: nat)
    requires i <= |rows| && RestoreAll(t, rows[..i]).Err?
    ensures RestoreAll(t, rows) == RestoreAll(t, rows[..i])
    decreases |rows|
  {
    if i == |rows| {
      assert rows[..i] == rows;
    } else {
      assert rows[..|rows| - 1][..i] == rows[..i];
      RestoreStops(t, rows[..|rows| - 1], i);
    }
  }
}
