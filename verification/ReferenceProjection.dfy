/** What a terminal keeps of the masters its coordinator publishes. */
module ReferenceProjection {
  import opened Wrappers
  import opened Versioned

  datatype Category = Category(name: string, active: bool)
  datatype Unit = Unit(code: int, name: string, scale: nat, active: bool)
  datatype PaymentMethod = PaymentMethod(name: string, kind: int, currency: int, active: bool)

  /** The columns of a product's own row. */
  datatype Header = Header(
    name: string, description: string, category: int, unit: int, price: int, currency: int, taxRate: int, active: bool)

  datatype Entry = Entry(barcodeId: int, code: int, active: bool)

  /** The published reference: the complete set of barcodes, and the price with its author and instant. */
  datatype Product = Product(header: Header, barcodes: seq<Entry>, publishedAt: int, publishedBy: int)

  datatype Barcode = Barcode(product: int, code: int, active: bool)

  /** A published price row's id is its product's id with a fixed suffix: it is named by that product. */
  type PriceId = int

  datatype Price = Price(product: int, price: int, currency: int, at: int, author: int)

  datatype Shelf = Shelf(products: map<int, Row<Header>>, barcodes: map<int, Barcode>, prices: map<PriceId, Price>)

  /** APPLIED, STALE, or a constraint that aborts the transaction. */
  datatype Answer = Done | Stale | Failed

  predicate Newer<C>(table: map<int, Row<C>>, d: Delivery<C>) {
    d.key !in table || table[d.key].version < d.row.version
  }

  // ---------- units: a code belongs to one unit ----------

  predicate UnitCodeFree(units: map<int, Row<Unit>>, id: int, code: int) {
    forall u :: u in units && u != id ==> units[u].content.code != code
  }

  /** A stale update is not tried against the unique code; a new row, or a newer one, is. */
  function UnitApplied(units: map<int, Row<Unit>>, d: Delivery<Unit>): (Answer, map<int, Row<Unit>>) {
    if !Newer(units, d) then (Stale, units)
    else if !UnitCodeFree(units, d.key, d.row.content.code) then (Failed, units)
    else (Done, Upserted(units, d))
  }

  // ---------- products and their child rows ----------

  /** A primary key taken, or another active barcode with the value. */
  predicate Clashes(barcodes: map<int, Barcode>, e: Entry) {
    e.barcodeId in barcodes
      || (e.active && exists b :: b in barcodes && barcodes[b].active && barcodes[b].code == e.code)
  }

  function Inserted(barcodes: map<int, Barcode>, product: int, entries: seq<Entry>): Option<map<int, Barcode>>
    decreases |entries|
  {
    if entries == [] then Some(barcodes)
    else if Clashes(barcodes, entries[0]) then None
    else Inserted(barcodes[entries[0].barcodeId := Barcode(product, entries[0].code, entries[0].active)],
                  product, entries[1..])
  }

  function WithoutBarcodes(barcodes: map<int, Barcode>, product: int): map<int, Barcode> {
    map b | b in barcodes && barcodes[b].product != product :: barcodes[b]
  }

  function WithoutPrices(prices: map<PriceId, Price>, product: int): map<PriceId, Price> {
    map p | p in prices && prices[p].product != product :: prices[p]
  }

  function PriceOf(product: int, ref: Product): Price {
    Price(product, ref.header.price, ref.header.currency, ref.publishedAt, ref.publishedBy)
  }

  function HeaderRow(d: Delivery<Product>): Row<Header> {
    Row(d.row.content.header, d.row.version)
  }

  /** The foreign keys of the product row. */
  predicate Known(categories: set<int>, units: set<int>, header: Header) {
    header.category in categories && header.unit in units
  }

  function ProductApplied(s: Shelf, categories: set<int>, units: set<int>, d: Delivery<Product>): (Answer, Shelf) {
    var barcodes := Inserted(WithoutBarcodes(s.barcodes, d.key), d.key, d.row.content.barcodes);
    if d.key in s.products && d.row.version <= s.products[d.key].version then (Stale, s)
    else if !Known(categories, units, d.row.content.header) || barcodes.None?
            || d.key in WithoutPrices(s.prices, d.key) then (Failed, s)
    else (Done, Shelf(s.products[d.key := HeaderRow(d)], barcodes.value,
                      WithoutPrices(s.prices, d.key)[d.key := PriceOf(d.key, d.row.content)]))
  }

  /** Inserts the published barcodes one by one; the first clash aborts. */
  method InsertBarcodes(barcodes: map<int, Barcode>, product: int, entries: seq<Entry>)
    returns (r: Option<map<int, Barcode>>)
    ensures r == Inserted(barcodes, product, entries)
  {
    var table := barcodes;
    for i := 0 to |entries|
      invariant Inserted(barcodes, product, entries) == Inserted(table, product, entries[i..])
    {
      if Clashes(table, entries[i]) {
        return None;
      }
      table := table[entries[i].barcodeId := Barcode(product, entries[i].code, entries[i].active)];
      assert entries[i..][1..] == entries[i + 1..];
    }
    return Some(table);
  }

  class Projection {
    var categories: map<int, Row<Category>>
    var units: map<int, Row<Unit>>
    var methods: map<int, Row<PaymentMethod>>
    var products: map<int, Row<Header>>
    var barcodes: map<int, Barcode>
    var prices: map<PriceId, Price>

    function Shelved(): Shelf
      reads this
    {
      Shelf(products, barcodes, prices)
    }

    constructor ()
      ensures categories == map[] && units == map[] && methods == map[] && Shelved() == Shelf(map[], map[], map[])
    {
      categories, units, methods := map[], map[], map[];
      products, barcodes, prices := map[], map[], map[];
    }

    method ApplyCategory(d: Delivery<Category>) returns (answer: Answer)
      modifies this`categories
      ensures answer == if Newer(old(categories), d) then Done else Stale
      ensures categories == Upserted(old(categories), d)
    {
      if d.key in categories && d.row.version <= categories[d.key].version {
        return Stale;
      }
      categories := categories[d.key := d.row];
      return Done;
    }

    method ApplyUnitOfMeasure(d: Delivery<Unit>) returns (answer: Answer)
      modifies this`units
      ensures (answer, units) == UnitApplied(old(units), d)
    {
      if d.key in units && d.row.version <= units[d.key].version {
        return Stale;
      }
      if !UnitCodeFree(units, d.key, d.row.content.code) {
        return Failed;
      }
      units := units[d.key := d.row];
      return Done;
    }

    method ApplyPaymentMethod(d: Delivery<PaymentMethod>) returns (answer: Answer)
      modifies this`methods
      ensures answer == if Newer(old(methods), d) then Done else Stale
      ensures methods == Upserted(old(methods), d)
    {
      if d.key in methods && d.row.version <= methods[d.key].version {
        return Stale;
      }
      methods := methods[d.key := d.row];
      return Done;
    }

    method ApplyProduct(d: Delivery<Product>) returns (answer: Answer)
      modifies this`products, this`barcodes, this`prices
      ensures (answer, Shelved()) == ProductApplied(old(Shelved()), categories.Keys, units.Keys, d)
    {
      if d.key in products && d.row.version <= products[d.key].version {
        return Stale;
      }
      if !Known(categories.Keys, units.Keys, d.row.content.header) {
        return Failed;
      }
      var codes := InsertBarcodes(WithoutBarcodes(barcodes, d.key), d.key, d.row.content.barcodes);
      var left := WithoutPrices(prices, d.key);
      if codes.None? || d.key in left {
        return Failed;
      }
      products, barcodes := products[d.key := HeaderRow(d)], codes.value;
      prices := left[d.key := PriceOf(d.key, d.row.content)];
      return Done;
    }
  }

  // ---------- the shelf mirrors the stored references ----------

  /** Every row is one the stored version of its product published, and every one of those is there. */
  ghost predicate Mirrors(s: Shelf, refs: map<int, Row<Product>>) {
    && s.products == (map p | p in refs :: Row(refs[p].content.header, refs[p].version))
    && BarcodesMirror(s.barcodes, refs)
    && PricesMirror(s.prices, refs)
  }

  ghost predicate BarcodesMirror(barcodes: map<int, Barcode>, refs: map<int, Row<Product>>) {
    && (forall b :: b in barcodes ==> BarcodeOf(refs, b, barcodes[b]))
    && (forall p, e :: p in refs && e in refs[p].content.barcodes ==>
          e.barcodeId in barcodes && barcodes[e.barcodeId] == Barcode(p, e.code, e.active))
  }

  /** One price row for each stored product, every column from the reference's own. */
  ghost predicate PricesMirror(prices: map<PriceId, Price>, refs: map<int, Row<Product>>) {
    && prices.Keys == refs.Keys
    && forall p :: p in prices && p in refs ==> PriceMirrors(prices[p], p, refs[p].content)
  }

  predicate PriceMirrors(price: Price, product: int, ref: Product) {
    && price.product == product && price.price == ref.header.price && price.currency == ref.header.currency
    && price.at == ref.publishedAt && price.author == ref.publishedBy
  }

  predicate BarcodeOf(refs: map<int, Row<Product>>, id: int, b: Barcode) {
    b.product in refs && Entry(id, b.code, b.active) in refs[b.product].content.barcodes
  }

  lemma {:induction false} InsertedIs(barcodes: map<int, Barcode>, product: int, entries: seq<Entry>)
    requires Inserted(barcodes, product, entries).Some?
    ensures
      var r := Inserted(barcodes, product, entries).value;
      && (forall b :: b in barcodes ==> b in r && r[b] == barcodes[b])
      && (forall e :: e in entries ==> e.barcodeId in r && r[e.barcodeId] == Barcode(product, e.code, e.active))
      && (forall b :: b in r && b !in barcodes ==>
            r[b].product == product && Entry(b, r[b].code, r[b].active) in entries)
    decreases |entries|
  {
    if entries != [] {
      var e := entries[0];
      InsertedIs(barcodes[e.barcodeId := Barcode(product, e.code, e.active)], product, entries[1..]);
      assert forall x :: x in entries <==> x == e || x in entries[1..];
    }
  }

  lemma OneShelf(a: Shelf, b: Shelf, refs: map<int, Row<Product>>)
    requires Mirrors(a, refs) && Mirrors(b, refs)
    ensures a == b
  {
    OneSetOfBarcodes(a.barcodes, b.barcodes, refs);
    OneSetOfPrices(a.prices, b.prices, refs);
  }

  lemma OneSetOfPrices(a: map<PriceId, Price>, b: map<PriceId, Price>, refs: map<int, Row<Product>>)
    requires PricesMirror(a, refs) && PricesMirror(b, refs)
    ensures a == b
  {
    forall p | p in a
      ensures p in b && a[p] == b[p]
    {
      assert PriceMirrors(a[p], p, refs[p].content) && PriceMirrors(b[p], p, refs[p].content);
    }
  }

  lemma OneSetOfBarcodes(a: map<int, Barcode>, b: map<int, Barcode>, refs: map<int, Row<Product>>)
    requires BarcodesMirror(a, refs) && BarcodesMirror(b, refs)
    ensures a == b
  {
    assert forall i :: i in a ==> BarcodeOf(refs, i, a[i]) && i in b && b[i] == a[i];
    assert forall i :: i in b ==> BarcodeOf(refs, i, b[i]) && i in a;
    assert a.Keys == b.Keys;
  }

  /** Applying a product keeps the mirror: a newer version replaces every child row, a stale one none. */
  lemma ProductKeepsMirror(s: Shelf, refs: map<int, Row<Product>>, categories: set<int>, units: set<int>,
                           d: Delivery<Product>)
    requires Mirrors(s, refs) && !ProductApplied(s, categories, units, d).0.Failed?
    ensures Mirrors(ProductApplied(s, categories, units, d).1, Upserted(refs, d))
  {
    if ProductApplied(s, categories, units, d).0.Done? {
      ReplacedMirrors(s, refs, d);
    }
  }

  lemma ReplacedMirrors(s: Shelf, refs: map<int, Row<Product>>, d: Delivery<Product>)
    requires Mirrors(s, refs) && Inserted(WithoutBarcodes(s.barcodes, d.key), d.key, d.row.content.barcodes).Some?
    ensures
      Mirrors(Shelf(s.products[d.key := HeaderRow(d)],
                    Inserted(WithoutBarcodes(s.barcodes, d.key), d.key, d.row.content.barcodes).value,
                    WithoutPrices(s.prices, d.key)[d.key := PriceOf(d.key, d.row.content)]),
              refs[d.key := d.row])
  {
    ReplacedBarcodes(s.barcodes, refs, d);
    ReplacedPrices(s.prices, refs, d);
  }

  lemma ReplacedBarcodes(barcodes: map<int, Barcode>, refs: map<int, Row<Product>>, d: Delivery<Product>)
    requires BarcodesMirror(barcodes, refs)
      && Inserted(WithoutBarcodes(barcodes, d.key), d.key, d.row.content.barcodes).Some?
    ensures BarcodesMirror(Inserted(WithoutBarcodes(barcodes, d.key), d.key, d.row.content.barcodes).value,
                           refs[d.key := d.row])
  {
    var kept := WithoutBarcodes(barcodes, d.key);
    InsertedIs(kept, d.key, d.row.content.barcodes);
    var barcodes', refs' := Inserted(kept, d.key, d.row.content.barcodes).value, refs[d.key := d.row];
    forall b | b in barcodes'
      ensures BarcodeOf(refs', b, barcodes'[b])
    {
      assert b in kept ==> BarcodeOf(refs, b, barcodes[b]);
    }
  }

  lemma ReplacedPrices(prices: map<PriceId, Price>, refs: map<int, Row<Product>>, d: Delivery<Product>)
    requires PricesMirror(prices, refs)
    ensures PricesMirror(WithoutPrices(prices, d.key)[d.key := PriceOf(d.key, d.row.content)], refs[d.key := d.row])
  {
    var kept := WithoutPrices(prices, d.key);
    forall p
      ensures p in kept <==> p in refs && p != d.key
    {
      assert p in prices && p in refs ==> PriceMirrors(prices[p], p, refs[p].content);
    }
    var prices' := kept[d.key := PriceOf(d.key, d.row.content)];
    assert prices'.Keys == refs.Keys + {d.key};
  }

  /** A delivery of a product while these categories and units are known. */
  datatype Step = Step(d: Delivery<Product>, categories: set<int>, units: set<int>)

  const NOTHING := Shelf(map[], map[], map[])

  function ShelfAfter(steps: seq<Step>): Shelf {
    if steps == [] then NOTHING
    else
      var last := steps[|steps| - 1];
      ProductApplied(ShelfAfter(steps[..|steps| - 1]), last.categories, last.units, last.d).1
  }

  /** The deliveries a history did not refuse, in its order: a refused one changed nothing and waits for its retry. */
  function Taken(steps: seq<Step>): seq<Delivery<Product>> {
    if steps == [] then []
    else
      var rest, last := steps[..|steps| - 1], steps[|steps| - 1];
      if ProductApplied(ShelfAfter(rest), last.categories, last.units, last.d).0.Failed? then Taken(rest)
      else Taken(rest) + [last.d]
  }

  /** After any history, refusals included, the shelf mirrors the references that were taken. */
  lemma {:induction false} ShelfMirrors(steps: seq<Step>)
    ensures Mirrors(ShelfAfter(steps), Applied(Taken(steps)))
  {
    if steps != [] {
      var rest, last := steps[..|steps| - 1], steps[|steps| - 1];
      ShelfMirrors(rest);
      if !ProductApplied(ShelfAfter(rest), last.categories, last.units, last.d).0.Failed? {
        ProductKeepsMirror(ShelfAfter(rest), Applied(Taken(rest)), last.categories, last.units, last.d);
        assert Taken(steps)[..|Taken(rest)|] == Taken(rest);
      }
    }
  }

  /**
   * Two histories that took the same product references, in any order, however often and whatever they
   * refused between, leave the same products, barcodes and prices: those of each product's stored version.
   */
  lemma ProductsConverge(a: seq<Step>, b: seq<Step>)
    requires SameFacts(Taken(a), Taken(b)) && OneContent(Taken(a))
    ensures ShelfAfter(a) == ShelfAfter(b) && Mirrors(ShelfAfter(a), Applied(Taken(a)))
  {
    ShelfMirrors(a);
    ShelfMirrors(b);
    TablesOfSameFacts(Taken(a), Taken(b));
    OneShelf(ShelfAfter(a), ShelfAfter(b), Applied(Taken(a)));
  }

  function UnitsAfter(ds: seq<Delivery<Unit>>): map<int, Row<Unit>> {
    if ds == [] then map[] else UnitApplied(UnitsAfter(ds[..|ds| - 1]), ds[|ds| - 1]).1
  }

  /** The deliveries of units whose code was not refused. */
  function UnitsTaken(ds: seq<Delivery<Unit>>): seq<Delivery<Unit>> {
    if ds == [] then []
    else
      var rest, last := ds[..|ds| - 1], ds[|ds| - 1];
      if UnitApplied(UnitsAfter(rest), last).0.Failed? then UnitsTaken(rest) else UnitsTaken(rest) + [last]
  }

  lemma {:induction false} UnitsAreApplied(ds: seq<Delivery<Unit>>)
    ensures UnitsAfter(ds) == Applied(UnitsTaken(ds))
  {
    if ds != [] {
      var rest, last := ds[..|ds| - 1], ds[|ds| - 1];
      UnitsAreApplied(rest);
      if !UnitApplied(UnitsAfter(rest), last).0.Failed? {
        AppliedMore(UnitsTaken(rest), last);
      }
    }
  }

  /** Units too depend only on which of their deliveries were taken. */
  lemma UnitsConverge(ds: seq<Delivery<Unit>>, es: seq<Delivery<Unit>>)
    requires SameFacts(UnitsTaken(ds), UnitsTaken(es)) && OneContent(UnitsTaken(ds))
    ensures UnitsAfter(ds) == UnitsAfter(es)
  {
    UnitsAreApplied(ds);
    UnitsAreApplied(es);
    TablesOfSameFacts(UnitsTaken(ds), UnitsTaken(es));
  }
}
