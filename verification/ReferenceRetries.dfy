/** Which references leave the same catalogue when what was refused is retried until nothing moves. */
module ReferenceRetries {
  import opened Wrappers
  import opened Selection
  import opened Versioned
  import opened ReferenceProjection
  import opened ReferenceOrder

  // ---------- retrying what was refused ----------

  /** Delivering any of the references again, whatever is known by then, changes nothing. */
  ghost predicate Idle(s: Shelf, ds: seq<Delivery<Product>>) {
    forall step: Step :: step.d in ds ==> ProductApplied(s, step.categories, step.units, step.d).1 == s
  }

  /** Histories that deliver the references and retry until nothing moves end with their greatest versions. */
  ghost predicate RetriesSettle(ds: seq<Delivery<Product>>) {
    forall steps :: Delivers(steps, ds) && Idle(ShelfAfter(steps), ds) ==> Mirrors(ShelfAfter(steps), Applied(ds))
  }

  /** References of different products that share nothing, and stand in the way of every newer one. */
  ghost predicate Stable(ds: seq<Delivery<Product>>, refs: map<int, Row<Product>>) {
    && (forall p :: p in refs ==> Delivery(p, refs[p]) in ds && Consistent(refs[p].content.barcodes))
    && (forall p, q :: p in refs && q in refs && p != q ==>
          !Shares(refs[p].content.barcodes, refs[q].content.barcodes))
    && (forall d :: d in ds && Newer(refs, d) ==> Blocked(refs, d))
  }

  predicate Blocked(refs: map<int, Row<Product>>, d: Delivery<Product>) {
    Consistent(d.row.content.barcodes) ==>
      exists p :: p in refs && p != d.key && Shares(d.row.content.barcodes, refs[p].content.barcodes)
  }

  predicate SameActive(a: Barcode, b: Barcode) {
    a.active && b.active && a.code == b.code
  }

  predicate ActiveUnique(barcodes: map<int, Barcode>) {
    forall a, b :: a in barcodes && b in barcodes && SameActive(barcodes[a], barcodes[b]) ==> a == b
  }

  lemma {:induction false} InsertionKeepsUnique(barcodes: map<int, Barcode>, product: int, entries: seq<Entry>)
    requires ActiveUnique(barcodes) && Inserted(barcodes, product, entries).Some?
    ensures ActiveUnique(Inserted(barcodes, product, entries).value)
    decreases |entries|
  {
    if entries != [] {
      InsertionKeepsUnique(With(barcodes, product, entries[0]), product, entries[1..]);
    }
  }

  lemma {:induction false} HistoryKeepsUnique(steps: seq<Step>)
    ensures ActiveUnique(ShelfAfter(steps).barcodes)
  {
    if steps != [] {
      var s, step := ShelfAfter(steps[..|steps| - 1]), steps[|steps| - 1];
      HistoryKeepsUnique(steps[..|steps| - 1]);
      if ProductApplied(s, step.categories, step.units, step.d).0.Done? {
        InsertionKeepsUnique(WithoutBarcodes(s.barcodes, step.d.key), step.d.key, step.d.row.content.barcodes);
      }
    }
  }

  /** Stored references of different products share nothing. */
  lemma StoredAreApart(s: Shelf, refs: map<int, Row<Product>>, p: int, q: int)
    requires Mirrors(s, refs) && ActiveUnique(s.barcodes) && p in refs && q in refs && p != q
    ensures !Shares(refs[p].content.barcodes, refs[q].content.barcodes)
  {
    var mine, theirs := refs[p].content.barcodes, refs[q].content.barcodes;
    forall i, j | 0 <= i < |mine| && 0 <= j < |theirs|
      ensures !Collide(mine[i], theirs[j])
    {
      var x, y := mine[i], theirs[j];
      assert x in mine && y in theirs;
      assert s.barcodes[x.barcodeId] == Barcode(p, x.code, x.active);
      assert s.barcodes[y.barcodeId] == Barcode(q, y.code, y.active);
    }
  }

  lemma {:induction false} NewerIsBlocked(s: Shelf, refs: map<int, Row<Product>>, ds: seq<Delivery<Product>>,
                                          d: Delivery<Product>)
    requires Mirrors(s, refs) && Idle(s, ds) && d in ds && Newer(refs, d)
    ensures Blocked(refs, d)
  {
    var header := d.row.content.header;
    var step := Step(d, {header.category}, {header.unit});
    assert ProductApplied(s, step.categories, step.units, step.d).1 == s;
    if !Blocked(refs, d) {
      UnsharedIsTaken(s, refs, step);
      TakenMoves(s, refs, step);
    }
  }

  lemma TakenMoves(s: Shelf, refs: map<int, Row<Product>>, step: Step)
    requires Mirrors(s, refs) && Newer(refs, step.d)
    requires !ProductApplied(s, step.categories, step.units, step.d).0.Failed?
    ensures ProductApplied(s, step.categories, step.units, step.d).1 != s
  {
    var d := step.d;
    assert d.key in s.products ==> s.products[d.key].version == refs[d.key].version;
    assert ProductApplied(s, step.categories, step.units, d).1.products[d.key] == HeaderRow(d);
  }

  /** Where retries end, the references stored are stable. */
  lemma {:induction false} IdleIsStable(steps: seq<Step>, ds: seq<Delivery<Product>>)
    requires (forall i :: 0 <= i < |steps| ==> steps[i].d in ds) && Idle(ShelfAfter(steps), ds)
    ensures Stable(ds, Applied(Taken(steps)))
  {
    var s, refs := ShelfAfter(steps), Applied(Taken(steps));
    ShelfMirrors(steps);
    HistoryKeepsUnique(steps);
    forall p | p in refs
      ensures Delivery(p, refs[p]) in ds && Consistent(refs[p].content.barcodes)
    {
      StoredWasDelivered(steps, ds, p);
    }
    forall p, q | p in refs && q in refs && p != q
      ensures !Shares(refs[p].content.barcodes, refs[q].content.barcodes)
    {
      StoredAreApart(s, refs, p, q);
    }
    forall d | d in ds && Newer(refs, d)
      ensures Blocked(refs, d)
    {
      NewerIsBlocked(s, refs, ds, d);
    }
  }

  /** A blocked reference finds a row in its way. */
  lemma BlockedIsRefused(s: Shelf, refs: map<int, Row<Product>>, d: Delivery<Product>)
    requires Mirrors(s, refs) && Blocked(refs, d)
    ensures Inserted(WithoutBarcodes(s.barcodes, d.key), d.key, d.row.content.barcodes).None?
  {
    var kept, mine := WithoutBarcodes(s.barcodes, d.key), d.row.content.barcodes;
    InsertedIff(kept, d.key, mine);
    if Consistent(mine) {
      var p :| p in refs && p != d.key && Shares(mine, refs[p].content.barcodes);
      var theirs := refs[p].content.barcodes;
      var i, j :| 0 <= i < |mine| && 0 <= j < |theirs| && Collide(mine[i], theirs[j]);
      var y := theirs[j];
      assert y in theirs;
      assert y.barcodeId in kept && kept[y.barcodeId] == Barcode(p, y.code, y.active);
      assert Clashes(kept, mine[i]);
    }
  }

  lemma {:induction false} StableStaysOnce(s: Shelf, refs: map<int, Row<Product>>, ds: seq<Delivery<Product>>,
                                           step: Step)
    requires Mirrors(s, refs) && Stable(ds, refs) && step.d in ds
    ensures ProductApplied(s, step.categories, step.units, step.d).1 == s
  {
    if Newer(refs, step.d) {
      BlockedIsRefused(s, refs, step.d);
    }
  }

  /** A stable shelf stays, however the references are delivered again. */
  lemma {:induction false} StableStays(start: seq<Step>, refs: map<int, Row<Product>>, ds: seq<Delivery<Product>>,
                                       more: seq<Step>)
    requires Mirrors(ShelfAfter(start), refs) && Stable(ds, refs)
    requires forall i :: 0 <= i < |more| ==> more[i].d in ds
    ensures ShelfAfter(start + more) == ShelfAfter(start)
  {
    if more == [] {
      assert start + more == start;
    } else {
      var n := |more| - 1;
      StableStays(start, refs, ds, more[..n]);
      StableStaysOnce(ShelfAfter(start), refs, ds, more[n]);
      assert (start + more)[..|start + more| - 1] == start + more[..n];
    }
  }

  /** The references of a table, by product. */
  function Chosen(refs: map<int, Row<Product>>): (ds: seq<Delivery<Product>>)
    ensures forall d: Delivery<Product> :: d in ds <==> d.key in refs && refs[d.key] == d.row
  {
    var keys := Ascending(refs.Keys);
    var ds := seq(|keys|, i requires 0 <= i < |keys| => Delivery(keys[i], refs[keys[i]]));
    assert forall d: Delivery<Product> :: d.key in refs && refs[d.key] == d.row ==> d in ds by {
      forall d: Delivery<Product> | d.key in refs && refs[d.key] == d.row
        ensures d in ds
      {
        assert d.key in keys;
        var i :| 0 <= i < |keys| && keys[i] == d.key;
        assert ds[i] == d;
      }
    }
    ds
  }

  /** Delivered first, stable references are all taken. */
  lemma {:induction false} ChosenSettle(ds: seq<Delivery<Product>>, refs: map<int, Row<Product>>)
    requires Stable(ds, refs)
    ensures
      var chosen := Chosen(refs);
      Mirrors(ShelfAfter(Deliveries(chosen, Categories(chosen), Units(chosen))), refs)
  {
    var chosen := Chosen(refs);
    assert OneContent(chosen);
    assert Unshared(chosen) by {
      forall d, e | d in chosen && e in chosen && e.key != d.key
        ensures Apart(d, e)
      {
        assert !Shares(refs[d.key].content.barcodes, refs[e.key].content.barcodes);
      }
    }
    AllGrounded(chosen, chosen);
    UnsharedSettles(Deliveries(chosen, Categories(chosen), Units(chosen)), chosen);
    ChosenIsTable(refs);
  }

  lemma ChosenIsTable(refs: map<int, Row<Product>>)
    ensures Applied(Chosen(refs)) == refs
  {
    var table := Applied(Chosen(refs));
    forall k
      ensures k in table <==> k in refs
      ensures k in refs ==> table[k] == refs[k]
    {
      if k in refs {
        ChosenHasRow(refs, k);
      }
      if k in table {
        TableRowIn(Chosen(refs), k);
      }
    }
    SameMap(table, refs);
  }

  lemma ChosenHasRow(refs: map<int, Row<Product>>, k: int)
    requires k in refs
    ensures k in Applied(Chosen(refs))
  {
    TableIsLatest(Chosen(refs));
    assert Delivery(k, refs[k]) in Chosen(refs);
  }

  /** A shelf says which references it is of. */
  lemma {:induction false} OneTable(s: Shelf, refs: map<int, Row<Product>>, ds: seq<Delivery<Product>>)
    requires OneContent(ds) && Mirrors(s, refs) && Mirrors(s, Applied(ds))
    requires forall p :: p in refs ==> Delivery(p, refs[p]) in ds
    ensures refs == Applied(ds)
  {
    var table := Applied(ds);
    TableIsLatest(ds);
    assert forall p :: p in refs <==> p in s.products;
    assert forall p :: p in table <==> p in s.products;
    forall p | p in refs
      ensures refs[p] == table[p]
    {
      assert s.products[p].version == refs[p].version == table[p].version;
      assert Latest(ds, Delivery(p, table[p]));
      assert Latest(ds, Delivery(p, refs[p]));
    }
    assert refs.Keys == table.Keys;
  }

  lemma {:induction false} StableIsIdle(s: Shelf, refs: map<int, Row<Product>>, ds: seq<Delivery<Product>>)
    requires Mirrors(s, refs) && Stable(ds, refs)
    ensures Idle(s, ds)
  {
    forall step: Step | step.d in ds
      ensures ProductApplied(s, step.categories, step.units, step.d).1 == s
    {
      StableStaysOnce(s, refs, ds, step);
    }
  }

  /** Some history that delivers every reference ends with the stable ones, and nothing moves there. */
  lemma {:induction false} StableIsReached(ds: seq<Delivery<Product>>, refs: map<int, Row<Product>>)
    returns (steps: seq<Step>)
    requires Stable(ds, refs)
    ensures Delivers(steps, ds) && Mirrors(ShelfAfter(steps), refs) && Idle(ShelfAfter(steps), ds)
  {
    var chosen := Chosen(refs);
    var start, all := Deliveries(chosen, Categories(chosen), Units(chosen)), Deliveries(ds, Categories(ds), Units(ds));
    ChosenSettle(ds, refs);
    AllGrounded(ds, ds);
    ChosenAreDelivered(ds, refs);
    steps := start + all;
    StableStays(start, refs, ds, all);
    DeliversMore(start, all, ds);
    StableIsIdle(ShelfAfter(steps), refs, ds);
  }

  lemma {:induction false} ChosenAreDelivered(ds: seq<Delivery<Product>>, refs: map<int, Row<Product>>)
    requires forall p :: p in refs ==> Delivery(p, refs[p]) in ds
    ensures
      var chosen := Chosen(refs);
      var start := Deliveries(chosen, Categories(chosen), Units(chosen));
      forall i :: 0 <= i < |start| ==> start[i].d in ds
  {
    var chosen := Chosen(refs);
    assert forall i :: 0 <= i < |chosen| ==>
      chosen[i] in chosen && chosen[i] == Delivery(chosen[i].key, refs[chosen[i].key]);
  }

  lemma {:induction false} DeliversMore(start: seq<Step>, all: seq<Step>, ds: seq<Delivery<Product>>)
    requires Delivers(all, ds) && forall i :: 0 <= i < |start| ==> start[i].d in ds
    ensures Delivers(start + all, ds)
  {
    forall d | d in ds
      ensures GroundedOnce(start + all, d)
    {
      assert GroundedOnce(all, d);
      var i :| 0 <= i < |all| && Grounded(all[i], d);
      assert Grounded((start + all)[|start| + i], d);
    }
  }

  /** Retrying is enough exactly when no stable choice of the references stops short of their greatest versions. */
  lemma {:induction false} RetriesSettleIff(ds: seq<Delivery<Product>>)
    requires OneContent(ds)
    ensures RetriesSettle(ds) <==> forall refs :: Stable(ds, refs) ==> refs == Applied(ds)
  {
    if RetriesSettle(ds) {
      forall refs | Stable(ds, refs)
        ensures refs == Applied(ds)
      {
        var steps := StableIsReached(ds, refs);
        OneTable(ShelfAfter(steps), refs, ds);
      }
    }
    if forall refs :: Stable(ds, refs) ==> refs == Applied(ds) {
      forall steps | Delivers(steps, ds) && Idle(ShelfAfter(steps), ds)
        ensures Mirrors(ShelfAfter(steps), Applied(ds))
      {
        IdleIsStable(steps, ds);
        ShelfMirrors(steps);
      }
    }
  }

  // ---------- a history that retries cannot save ----------

  /** A version of a product whose one barcode is active. */
  function Version(product: int, version: int, barcodeId: int, code: int): Delivery<Product> {
    var header := Header("", "", 0, 0, 1, 0, 0, true);
    Delivery(product, Row(Product(header, [Entry(barcodeId, code, true)], 0, 0), version))
  }

  const ONE_X := Version(1, 1, 1, 24)
  const TWO_Y := Version(2, 1, 2, 25)
  const ONE_Z := Version(1, 2, 3, 26)
  const TWO_X := Version(2, 2, 4, 24)
  const ONE_Y := Version(1, 3, 5, 25)
  const FOUR_Z := Version(4, 1, 6, 26)

  /**
   * As the coordinator publishes them: two products exchange their codes by way of a third one, which a
   * new product then takes.
   */
  const PUBLISHED := [ONE_X, TWO_Y, ONE_Z, TWO_X, ONE_Y, FOUR_Z]

  /** The new product comes early; each product's versions still come in order. */
  const ARRIVAL := [ONE_X, TWO_Y, FOUR_Z, ONE_Z, TWO_X, ONE_Y]

  const STUCK := map[1 := ONE_X.row, 2 := TWO_Y.row, 4 := FOUR_Z.row]

  function Arrived(ds: seq<Delivery<Product>>): seq<Step> {
    Deliveries(ds, {0}, {0})
  }

  /** The next reference is taken when no stored one of another product has its code. */
  lemma {:induction false} NextIsTaken(ds: seq<Delivery<Product>>, refs: map<int, Row<Product>>, d: Delivery<Product>)
    requires Taken(Arrived(ds)) == ds && Applied(ds) == refs && Newer(refs, d)
    requires Consistent(d.row.content.barcodes) && Known({0}, {0}, d.row.content.header)
    requires forall p :: p in refs && p != d.key ==> !Shares(d.row.content.barcodes, refs[p].content.barcodes)
    ensures Taken(Arrived(ds + [d])) == ds + [d] && Applied(ds + [d]) == refs[d.key := d.row]
  {
    var steps := Arrived(ds + [d]);
    assert steps[..|ds|] == Arrived(ds) && (ds + [d])[..|ds|] == ds;
    assert !Refused(steps, |ds|) by {
      ShelfMirrors(Arrived(ds));
      UnsharedIsTaken(ShelfAfter(Arrived(ds)), refs, steps[|ds|]);
    }
    LastTaken(steps);
  }

  lemma FirstTwo()
    ensures Taken(Arrived([ONE_X, TWO_Y])) == [ONE_X, TWO_Y]
    ensures Applied([ONE_X, TWO_Y]) == map[1 := ONE_X.row, 2 := TWO_Y.row]
  {
    NextIsTaken([], map[], ONE_X);
    NextIsTaken([ONE_X], map[1 := ONE_X.row], TWO_Y);
    assert [] + [ONE_X] == [ONE_X] && [ONE_X] + [TWO_Y] == [ONE_X, TWO_Y];
  }

  lemma FirstThree()
    ensures Taken(Arrived(PUBLISHED[..3])) == PUBLISHED[..3]
    ensures Applied(PUBLISHED[..3]) == map[1 := ONE_Z.row, 2 := TWO_Y.row]
  {
    FirstTwo();
    NextIsTaken([ONE_X, TWO_Y], map[1 := ONE_X.row, 2 := TWO_Y.row], ONE_Z);
    assert [ONE_X, TWO_Y] + [ONE_Z] == PUBLISHED[..3];
  }

  lemma FirstFour()
    ensures Taken(Arrived(PUBLISHED[..4])) == PUBLISHED[..4]
    ensures Applied(PUBLISHED[..4]) == map[1 := ONE_Z.row, 2 := TWO_X.row]
  {
    FirstThree();
    NextIsTaken(PUBLISHED[..3], map[1 := ONE_Z.row, 2 := TWO_Y.row], TWO_X);
    assert PUBLISHED[..3] + [TWO_X] == PUBLISHED[..4];
  }

  /** In the order they were published, no reference is refused. */
  lemma PublishedOrderIsTaken()
    ensures Taken(Arrived(PUBLISHED)) == PUBLISHED
  {
    FirstFour();
    NextIsTaken(PUBLISHED[..4], map[1 := ONE_Z.row, 2 := TWO_X.row], ONE_Y);
    assert PUBLISHED[..4] + [ONE_Y] == PUBLISHED[..5];
    NextIsTaken(PUBLISHED[..5], map[1 := ONE_Y.row, 2 := TWO_X.row], FOUR_Z);
    assert PUBLISHED[..5] + [FOUR_Z] == PUBLISHED;
  }

  lemma BlockedBy(refs: map<int, Row<Product>>, d: Delivery<Product>, e: Delivery<Product>)
    requires e.key in refs && refs[e.key] == e.row && e.key != d.key
    requires |d.row.content.barcodes| == 1 == |e.row.content.barcodes|
    requires Collide(d.row.content.barcodes[0], e.row.content.barcodes[0])
    ensures Blocked(refs, d)
  {
    assert Shares(d.row.content.barcodes, refs[e.key].content.barcodes);
  }

  lemma StuckBlocks()
    ensures forall d :: d in PUBLISHED && Newer(STUCK, d) ==> Blocked(STUCK, d)
  {
    BlockedBy(STUCK, ONE_Z, FOUR_Z);
    BlockedBy(STUCK, TWO_X, ONE_X);
    BlockedBy(STUCK, ONE_Y, TWO_Y);
  }

  /** The three versions at hand stand in the way of the three that are left. */
  lemma StuckIsStable()
    ensures Stable(PUBLISHED, STUCK)
  {
    StuckBlocks();
    assert PUBLISHED[0] in PUBLISHED && PUBLISHED[1] in PUBLISHED && PUBLISHED[5] in PUBLISHED;
  }

  lemma FirstThreeStick()
    ensures Mirrors(ShelfAfter(Arrived(ARRIVAL[..3])), STUCK)
  {
    FirstTwo();
    NextIsTaken([ONE_X, TWO_Y], map[1 := ONE_X.row, 2 := TWO_Y.row], FOUR_Z);
    assert [ONE_X, TWO_Y] + [FOUR_Z] == ARRIVAL[..3];
    ShelfMirrors(Arrived(ARRIVAL[..3]));
  }

  /** The same references, each product's in the order of its versions. */
  lemma ArrivalIsOrderly()
    ensures SameFacts(PUBLISHED, ARRIVAL)
    ensures forall i, j :: 0 <= i < j < |ARRIVAL| && ARRIVAL[i].key == ARRIVAL[j].key ==>
      ARRIVAL[i].row.version < ARRIVAL[j].row.version
  {
    forall d
      ensures d in PUBLISHED <==> d in ARRIVAL
    {
      assert d in PUBLISHED <==> d in {ONE_X, TWO_Y, ONE_Z, TWO_X, ONE_Y, FOUR_Z};
      assert d in ARRIVAL <==> d in {ONE_X, TWO_Y, ONE_Z, TWO_X, ONE_Y, FOUR_Z};
    }
  }

  lemma PublishedOnce()
    ensures OneContent(PUBLISHED) && Latest(PUBLISHED, ONE_Y)
  {
    assert PUBLISHED[4] in PUBLISHED;
  }

  lemma {:induction false} ArrivedInTwo(more: seq<Step>)
    ensures Arrived(ARRIVAL) + more == Arrived(ARRIVAL[..3]) + (Arrived(ARRIVAL[3..]) + more)
  {
  }

  lemma {:induction false} ArrivedArePublished(more: seq<Step>)
    requires forall i :: 0 <= i < |more| ==> more[i].d in PUBLISHED
    ensures
      var later := Arrived(ARRIVAL[3..]) + more;
      forall i :: 0 <= i < |later| ==> later[i].d in PUBLISHED
  {
    ArrivalIsOrderly();
    assert forall i :: 3 <= i < |ARRIVAL| ==> ARRIVAL[i] in ARRIVAL;
  }

  /** However often anything is delivered again, the terminal keeps two products at their first version. */
  lemma {:induction false} RetryingIsNotEnough(more: seq<Step>)
    requires forall i :: 0 <= i < |more| ==> more[i].d in PUBLISHED
    ensures Mirrors(ShelfAfter(Arrived(ARRIVAL) + more), STUCK)
  {
    FirstThreeStick();
    StuckIsStable();
    ArrivedArePublished(more);
    StableStays(Arrived(ARRIVAL[..3]), STUCK, PUBLISHED, Arrived(ARRIVAL[3..]) + more);
    ArrivedInTwo(more);
  }

  /** So retries do not settle these references, though the order they were published in does. */
  lemma PublishedDoNotSettle()
    ensures !RetriesSettle(PUBLISHED)
    ensures Mirrors(ShelfAfter(Arrived(PUBLISHED)), Applied(PUBLISHED))
  {
    PublishedOnce();
    StuckIsStable();
    PublishedOrderIsTaken();
    ShelfMirrors(Arrived(PUBLISHED));
    RetriesSettleIff(PUBLISHED);
    LastRow(PUBLISHED, ONE_Y);
    assert STUCK[1] != Applied(PUBLISHED)[1];
  }
}
