/** What the coordinator consolidates of the sales and fiscal entries of its terminals. */
module CommercialProjection {
  import opened Wrappers
  import opened Versioned

  datatype Sale = Sale(
    originNode: int, terminal: int, shift: int, total: int, paidTotal: int, currency: int, itemCount: nat,
    occurredAt: int)

  datatype Return = Return(at: int, refund: int, currency: int)

  /** A row of the projection: the published columns, and the return marked on it. */
  datatype SaleRow = SaleRow(sale: Row<Sale>, returned: Option<Return>)

  datatype FiscalEntry = FiscalEntry(
    originNode: int, kind: int, reference: int, fiscalNumber: Option<int>, errorCode: Option<int>,
    evidence: Option<(int, int, int, int)>, occurredAt: int)

  function SaleApplied(sales: map<int, SaleRow>, d: Delivery<Sale>): map<int, SaleRow> {
    if d.key !in sales then sales[d.key := SaleRow(d.row, None)]
    else if sales[d.key].sale.version < d.row.version then sales[d.key := sales[d.key].(sale := d.row)]
    else sales
  }

  function ReturnApplied(sales: map<int, SaleRow>, id: int, r: Return): map<int, SaleRow> {
    if id in sales && sales[id].returned.None? then sales[id := sales[id].(returned := Some(r))] else sales
  }

  class Projection {
    var sales: map<int, SaleRow>
    var fiscal: map<int, Row<FiscalEntry>>

    constructor ()
      ensures sales == map[] && fiscal == map[]
    {
      sales, fiscal := map[], map[];
    }

    method ApplySale(d: Delivery<Sale>)
      modifies this`sales
      ensures sales == SaleApplied(old(sales), d)
    {
      if d.key !in sales {
        sales := sales[d.key := SaleRow(d.row, None)];
      } else if d.row.version > sales[d.key].sale.version {
        sales := sales[d.key := SaleRow(d.row, sales[d.key].returned)];
      }
    }

    method ApplySaleReturn(id: int, r: Return)
      modifies this`sales
      ensures sales == ReturnApplied(old(sales), id, r)
    {
      if id in sales && sales[id].returned.None? {
        sales := sales[id := SaleRow(sales[id].sale, Some(r))];
      }
    }

    method ApplyFiscalEntry(d: Delivery<FiscalEntry>)
      modifies this`fiscal
      ensures fiscal == Upserted(old(fiscal), d)
    {
      if d.key !in fiscal || d.row.version > fiscal[d.key].version {
        fiscal := fiscal[d.key := d.row];
      }
    }
  }

  // ---------- histories of sales and returns ----------

  datatype Fact = Sold(sold: Delivery<Sale>) | Returned(id: int, what: Return)

  function Projected(rows: map<int, SaleRow>, f: Fact): map<int, SaleRow> {
    match f
    case Sold(d) => SaleApplied(rows, d)
    case Returned(id, r) => ReturnApplied(rows, id, r)
  }

  function After(facts: seq<Fact>): map<int, SaleRow> {
    if facts == [] then map[]
    else
      Projected(After(facts[..|facts| - 1]), facts[|facts| - 1])
  }

  /** The deliveries of sales among the facts, in order. */
  function Sales(facts: seq<Fact>): seq<Delivery<Sale>> {
    if facts == [] then []
    else Sales(facts[..|facts| - 1]) + (if facts[|facts| - 1].Sold? then [facts[|facts| - 1].sold] else [])
  }

  function Headers(rows: map<int, SaleRow>): map<int, Row<Sale>> {
    map k | k in rows :: rows[k].sale
  }

  lemma {:induction false} HeadersIgnoreReturns(facts: seq<Fact>)
    ensures Headers(After(facts)) == Applied(Sales(facts))
  {
    if facts != [] {
      var rest, last := facts[..|facts| - 1], facts[|facts| - 1];
      HeadersIgnoreReturns(rest);
      if last.Sold? {
        assert Sales(facts)[..|Sales(facts)| - 1] == Sales(rest);
        SaleIsUpsert(After(rest), last.sold);
      } else {
        ReturnKeepsHeaders(After(rest), last.id, last.what);
        assert Sales(facts) == Sales(rest);
      }
    }
  }

  lemma SaleIsUpsert(rows: map<int, SaleRow>, d: Delivery<Sale>)
    ensures Headers(SaleApplied(rows, d)) == Upserted(Headers(rows), d)
  {
  }

  lemma ReturnKeepsHeaders(rows: map<int, SaleRow>, id: int, r: Return)
    ensures Headers(ReturnApplied(rows, id, r)) == Headers(rows)
  {
  }

  /** The columns of projected sales depend only on which sales were delivered, whatever returns came between. */
  lemma SalesConverge(a: seq<Fact>, b: seq<Fact>)
    requires SameFacts(Sales(a), Sales(b)) && OneContent(Sales(a))
    ensures Headers(After(a)) == Headers(After(b))
  {
    HeadersIgnoreReturns(a);
    HeadersIgnoreReturns(b);
    TablesOfSameFacts(Sales(a), Sales(b));
  }

  predicate SaleOf(f: Fact, id: int) { f.Sold? && f.sold.key == id }

  predicate ReturnOf(f: Fact, id: int) { f.Returned? && f.id == id }

  predicate SoldBefore(facts: seq<Fact>, id: int, n: nat)
    requires n <= |facts|
  {
    exists i :: 0 <= i < n && SaleOf(facts[i], id)
  }

  /** Fact `j` is the first return of the sale delivered after it. */
  predicate Marks(facts: seq<Fact>, id: int, j: nat)
    requires j < |facts|
  {
    && ReturnOf(facts[j], id) && SoldBefore(facts, id, j)
    && forall k :: 0 <= k < j && ReturnOf(facts[k], id) ==> !SoldBefore(facts, id, k)
  }

  predicate MarkedBy(facts: seq<Fact>, id: int, r: Return) {
    exists j :: 0 <= j < |facts| && Marks(facts, id, j) && facts[j].what == r
  }

  predicate Marked(rows: map<int, SaleRow>, id: int, r: Return) {
    id in rows && rows[id].returned == Some(r)
  }

  /** A longer history keeps the mark, and marks at its end when nothing was marked before. */
  lemma MarksGrow(facts: seq<Fact>, id: int, r: Return)
    requires facts != []
    ensures
      var n := |facts| - 1;
      MarkedBy(facts, id, r) <==> MarkedBy(facts[..n], id, r) || (Marks(facts, id, n) && facts[n].what == r)
  {
    var n := |facts| - 1;
    assert forall j :: 0 <= j < n ==> (Marks(facts, id, j) <==> Marks(facts[..n], id, j)) by {
      assert forall j :: 0 <= j < n ==> (SoldBefore(facts, id, j) <==> SoldBefore(facts[..n], id, j));
    }
  }

  lemma NothingMarked(facts: seq<Fact>, id: int)
    ensures (forall r :: !MarkedBy(facts, id, r))
      <==> forall k :: 0 <= k < |facts| && ReturnOf(facts[k], id) ==> !SoldBefore(facts, id, k)
  {
    if k :| 0 <= k < |facts| && ReturnOf(facts[k], id) && SoldBefore(facts, id, k) {
      FirstMark(facts, id, k);
    } else {
      assert forall j :: 0 <= j < |facts| ==> !Marks(facts, id, j);
    }
  }

  lemma {:induction false} FirstMark(facts: seq<Fact>, id: int, k: nat)
    requires k < |facts| && ReturnOf(facts[k], id) && SoldBefore(facts, id, k)
    ensures exists r :: MarkedBy(facts, id, r)
  {
    if j :| 0 <= j < k && ReturnOf(facts[j], id) && SoldBefore(facts, id, j) {
      FirstMark(facts, id, j);
    } else {
      assert Marks(facts, id, k) && MarkedBy(facts, id, facts[k].what);
    }
  }

  /** The last fact marks exactly when it is a return of a sale that nothing has marked. */
  lemma LastMarks(facts: seq<Fact>, id: int)
    requires facts != []
    ensures
      var n := |facts| - 1;
      var first := ReturnOf(facts[n], id) && SoldBefore(facts[..n], id, n) && forall r :: !MarkedBy(facts[..n], id, r);
      Marks(facts, id, n) <==> first
  {
    var n := |facts| - 1;
    NothingMarked(facts[..n], id);
    assert forall k :: 0 <= k <= n ==> (SoldBefore(facts, id, k) <==> SoldBefore(facts[..n], id, k));
    assert forall k :: 0 <= k < n ==> facts[..n][k] == facts[k];
  }

  lemma {:induction false} ProjectedIffSold(facts: seq<Fact>, id: int)
    ensures id in After(facts) <==> SoldBefore(facts, id, |facts|)
  {
    if facts != [] {
      var n := |facts| - 1;
      ProjectedIffSold(facts[..n], id);
      assert SoldBefore(facts, id, |facts|) <==> SoldBefore(facts[..n], id, n) || SaleOf(facts[n], id);
    }
  }

  lemma StepMarks(rows: map<int, SaleRow>, f: Fact, id: int, r: Return)
    ensures
      var marks := ReturnOf(f, id) && id in rows && rows[id].returned.None? && f.what == r;
      Marked(Projected(rows, f), id, r) <==> Marked(rows, id, r) || marks
  {
  }

  /** The return marked is the first one delivered after its sale: what arrives before it leaves nothing. */
  lemma {:induction false} ReturnMarkedIff(facts: seq<Fact>, id: int)
    ensures forall r :: Marked(After(facts), id, r) <==> MarkedBy(facts, id, r)
  {
    if facts != [] {
      var n := |facts| - 1;
      var rest := facts[..n];
      ReturnMarkedIff(rest, id);
      ProjectedIffSold(rest, id);
      LastMarks(facts, id);
      var rows := After(rest);
      assert id in rows ==> (rows[id].returned.None? <==> forall x :: !Marked(rows, id, x)) by {
        assert id in rows && rows[id].returned.Some? ==> Marked(rows, id, rows[id].returned.value);
      }
      forall r
        ensures Marked(After(facts), id, r) <==> MarkedBy(facts, id, r)
      {
        MarksGrow(facts, id, r);
        StepMarks(rows, facts[n], id, r);
      }
    }
  }

  /** A return delivered before its sale: the sale stays unmarked. */
  lemma ReturnBeforeSaleIsLost(d: Delivery<Sale>, r: Return)
    ensures After([Returned(d.key, r), Sold(d)]) == map[d.key := SaleRow(d.row, None)]
  {
    var facts := [Returned(d.key, r), Sold(d)];
    assert facts[..1] == [Returned(d.key, r)] && [Returned(d.key, r)][..0] == [];
    assert After([Returned(d.key, r)]) == map[];
  }
}
