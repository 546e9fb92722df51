/** Which published references leave the same catalogue whatever the order they arrive in. */
module ReferenceOrder {
  import opened Wrappers
  import opened Versioned
  import opened ReferenceProjection

  // ---------- when a reference is taken ----------

  /** No barcode of the reference stands in the way of another of its own. */
  predicate Consistent(entries: seq<Entry>) {
    forall i, j :: 0 <= i < j < |entries| ==> !Collide(entries[i], entries[j])
  }

  /** One primary key, or one active value. */
  predicate Collide(x: Entry, y: Entry) {
    x.barcodeId == y.barcodeId || (x.active && y.active && x.code == y.code)
  }

  predicate Shares(a: seq<Entry>, b: seq<Entry>) {
    exists i, j :: 0 <= i < |a| && 0 <= j < |b| && Collide(a[i], b[j])
  }

  function With(barcodes: map<int, Barcode>, product: int, e: Entry): map<int, Barcode> {
    barcodes[e.barcodeId := Barcode(product, e.code, e.active)]
  }

  lemma ClashesAfterOne(barcodes: map<int, Barcode>, product: int, e: Entry, x: Entry)
    requires !Clashes(barcodes, e)
    ensures Clashes(With(barcodes, product, e), x) <==> Clashes(barcodes, x) || Collide(e, x)
  {
    var after := With(barcodes, product, e);
    assert forall b :: b in barcodes ==> after[b] == barcodes[b];
    assert e.barcodeId in after;
  }

  /** The published set goes in exactly when no entry collides with another or clashes with a row. */
  lemma {:induction false} InsertedIff(barcodes: map<int, Barcode>, product: int, entries: seq<Entry>)
    ensures Inserted(barcodes, product, entries).Some?
      <==> (Consistent(entries) && forall i :: 0 <= i < |entries| ==> !Clashes(barcodes, entries[i]))
    decreases |entries|
  {
    if entries != [] && !Clashes(barcodes, entries[0]) {
      var e, rest := entries[0], entries[1..];
      InsertedIff(With(barcodes, product, e), product, rest);
      forall i | 0 <= i < |rest|
        ensures Clashes(With(barcodes, product, e), rest[i])
          <==> (Clashes(barcodes, entries[i + 1]) || Collide(e, entries[i + 1]))
      {
        ClashesAfterOne(barcodes, product, e, rest[i]);
      }
      assert Consistent(entries) <==> (Consistent(rest) && forall i :: 0 <= i < |rest| ==> !Collide(e, rest[i]));
    }
  }

  predicate Refused(steps: seq<Step>, i: nat)
    requires i < |steps|
  {
    ProductApplied(ShelfAfter(steps[..i]), steps[i].categories, steps[i].units, steps[i].d).0.Failed?
  }

  predicate TakenAt(steps: seq<Step>, d: Delivery<Product>, i: nat)
    requires i < |steps|
  {
    steps[i].d == d && !Refused(steps, i)
  }

  lemma {:induction false} LastTaken(steps: seq<Step>)
    requires steps != []
    ensures
      var n := |steps| - 1;
      Taken(steps) == if Refused(steps, n) then Taken(steps[..n]) else Taken(steps[..n]) + [steps[n].d]
  {
  }

  lemma {:induction false} TakenInPrefix(steps: seq<Step>, n: nat, d: Delivery<Product>, i: nat)
    requires i < n <= |steps|
    ensures TakenAt(steps[..n], d, i) <==> TakenAt(steps, d, i)
  {
    assert steps[..n][..i] == steps[..i];
  }

  predicate TakenOnce(steps: seq<Step>, d: Delivery<Product>) {
    exists i :: 0 <= i < |steps| && TakenAt(steps, d, i)
  }

  lemma {:induction false} TakenOnceMore(steps: seq<Step>, d: Delivery<Product>)
    requires steps != []
    ensures
      var n := |steps| - 1;
      TakenOnce(steps, d) <==> TakenOnce(steps[..n], d) || TakenAt(steps, d, n)
  {
    var n := |steps| - 1;
    forall i | 0 <= i < n
      ensures TakenAt(steps[..n], d, i) <==> TakenAt(steps, d, i)
    {
      TakenInPrefix(steps, n, d, i);
    }
  }

  /** What a history took is what some of its steps did not refuse. */
  lemma {:induction false} TakenIff(steps: seq<Step>, d: Delivery<Product>)
    ensures d in Taken(steps) <==> TakenOnce(steps, d)
  {
    if steps != [] {
      var n := |steps| - 1;
      TakenIff(steps[..n], d);
      LastTaken(steps);
      TakenOnceMore(steps, d);
    }
  }

  // ---------- the rows a history leaves ----------

  /** Only consistent references are stored. */
  ghost predicate AllConsistent(refs: map<int, Row<Product>>) {
    forall p :: p in refs ==> Consistent(refs[p].content.barcodes)
  }

  lemma {:induction false} StoredAreConsistent(steps: seq<Step>)
    ensures AllConsistent(Applied(Taken(steps)))
  {
    if steps != [] {
      var n := |steps| - 1;
      StoredAreConsistent(steps[..n]);
      LastTaken(steps);
      if !Refused(steps, n) {
        ShelfMirrors(steps[..n]);
        TakenIsConsistent(ShelfAfter(steps[..n]), Applied(Taken(steps[..n])), steps[n]);
        assert Taken(steps)[..|Taken(steps)| - 1] == Taken(steps[..n]);
      }
    }
  }

  lemma TakenIsConsistent(s: Shelf, refs: map<int, Row<Product>>, step: Step)
    requires Mirrors(s, refs) && AllConsistent(refs)
    requires !ProductApplied(s, step.categories, step.units, step.d).0.Failed?
    ensures AllConsistent(Upserted(refs, step.d))
  {
    InsertedIff(WithoutBarcodes(s.barcodes, step.d.key), step.d.key, step.d.row.content.barcodes);
  }

  /** Rows of other products in the way of a reference come from references it shares a barcode with. */
  lemma ClashIsShared(s: Shelf, refs: map<int, Row<Product>>, d: Delivery<Product>)
    requires Mirrors(s, refs) && Consistent(d.row.content.barcodes)
    requires forall p :: p in refs && p != d.key ==> !Shares(d.row.content.barcodes, refs[p].content.barcodes)
    ensures Inserted(WithoutBarcodes(s.barcodes, d.key), d.key, d.row.content.barcodes).Some?
  {
    var kept, entries := WithoutBarcodes(s.barcodes, d.key), d.row.content.barcodes;
    forall i | 0 <= i < |entries|
      ensures !Clashes(kept, entries[i])
    {
      forall b | b in kept
        ensures !Collide(entries[i], Entry(b, kept[b].code, kept[b].active))
      {
        assert BarcodeOf(refs, b, kept[b]);
        var theirs := refs[kept[b].product].content.barcodes;
        var j :| 0 <= j < |theirs| && theirs[j] == Entry(b, kept[b].code, kept[b].active);
        assert !Shares(entries, theirs);
      }
    }
    InsertedIff(kept, d.key, entries);
  }

  /** A reference that shares nothing with the stored ones of other products is not refused once its keys are known. */
  lemma UnsharedIsTaken(s: Shelf, refs: map<int, Row<Product>>, step: Step)
    requires Mirrors(s, refs) && Consistent(step.d.row.content.barcodes)
    requires Known(step.categories, step.units, step.d.row.content.header)
    requires forall p :: p in refs && p != step.d.key ==>
      !Shares(step.d.row.content.barcodes, refs[p].content.barcodes)
    ensures !ProductApplied(s, step.categories, step.units, step.d).0.Failed?
  {
    ClashIsShared(s, refs, step.d);
    assert step.d.key !in WithoutPrices(s.prices, step.d.key);
  }

  /** The answer to a product, told from the references its shelf mirrors. */
  lemma AnswerIs(s: Shelf, refs: map<int, Row<Product>>, categories: set<int>, units: set<int>, d: Delivery<Product>)
    requires Mirrors(s, refs)
    ensures
      var answer := ProductApplied(s, categories, units, d).0;
      var ref := d.row.content;
      var stale := d.key in refs && d.row.version <= refs[d.key].version;
      && (answer == Stale <==> stale)
      && (answer == Failed
          <==> (!stale
                && (|| ref.header.category !in categories || ref.header.unit !in units
                    || (exists i, j :: 0 <= i < j < |ref.barcodes| && Collide(ref.barcodes[i], ref.barcodes[j]))
                    || (exists i, p, e :: 0 <= i < |ref.barcodes| && p in refs && p != d.key
                                       && e in refs[p].content.barcodes && Collide(ref.barcodes[i], e)))))
      && (answer != Done ==> ProductApplied(s, categories, units, d).1 == s)
  {
    var ref, kept := d.row.content, WithoutBarcodes(s.barcodes, d.key);
    InsertedIff(kept, d.key, ref.barcodes);
    forall i | 0 <= i < |ref.barcodes|
      ensures Clashes(kept, ref.barcodes[i])
        <==> (exists p, e :: p in refs && p != d.key && e in refs[p].content.barcodes
                          && Collide(ref.barcodes[i], e))
    {
      ClashIsOthers(s, refs, d.key, ref.barcodes[i]);
    }
    assert d.key !in WithoutPrices(s.prices, d.key);
  }

  lemma ClashIsOthers(s: Shelf, refs: map<int, Row<Product>>, product: int, x: Entry)
    requires Mirrors(s, refs)
    ensures Clashes(WithoutBarcodes(s.barcodes, product), x)
      <==> (exists p, e :: p in refs && p != product && e in refs[p].content.barcodes && Collide(x, e))
  {
    var kept := WithoutBarcodes(s.barcodes, product);
    if Clashes(kept, x) {
      var b :| b in kept && (b == x.barcodeId || (x.active && kept[b].active && kept[b].code == x.code));
      var e := Entry(b, kept[b].code, kept[b].active);
      assert BarcodeOf(refs, b, s.barcodes[b]);
      assert e in refs[kept[b].product].content.barcodes && Collide(x, e);
    }
    if p, e :| p in refs && p != product && e in refs[p].content.barcodes && Collide(x, e) {
      assert kept[e.barcodeId] == Barcode(p, e.code, e.active);
    }
  }

  // ---------- the condition on the references ----------

  /** Every reference is delivered, in any order and however often, at least once with its category and unit known. */
  ghost predicate Delivers(steps: seq<Step>, ds: seq<Delivery<Product>>) {
    && (forall i :: 0 <= i < |steps| ==> steps[i].d in ds)
    && (forall d :: d in ds ==> GroundedOnce(steps, d))
  }

  predicate GroundedOnce(steps: seq<Step>, d: Delivery<Product>) {
    exists i :: 0 <= i < |steps| && Grounded(steps[i], d)
  }

  predicate Grounded(step: Step, d: Delivery<Product>) {
    step.d == d && Known(step.categories, step.units, d.row.content.header)
  }

  /** Every history that delivers the references ends with the shelf of their greatest versions. */
  ghost predicate Settles(ds: seq<Delivery<Product>>) {
    forall steps :: Delivers(steps, ds) ==> Mirrors(ShelfAfter(steps), Applied(ds))
  }

  /** No product's last reference collides with itself, or with any reference of another that could be stored. */
  ghost predicate Unshared(ds: seq<Delivery<Product>>) {
    forall d :: Latest(ds, d) ==>
      Consistent(d.row.content.barcodes) && forall e :: e in ds && e.key != d.key ==> Apart(d, e)
  }

  predicate Apart(d: Delivery<Product>, e: Delivery<Product>) {
    Consistent(e.row.content.barcodes) ==> !Shares(d.row.content.barcodes, e.row.content.barcodes)
  }

  /** All that a history took was delivered. */
  lemma {:induction false} TakenWasDelivered(steps: seq<Step>, ds: seq<Delivery<Product>>)
    requires forall i :: 0 <= i < |steps| ==> steps[i].d in ds
    ensures forall d :: d in Taken(steps) ==> d in ds
  {
    forall d | d in Taken(steps)
      ensures d in ds
    {
      TakenIff(steps, d);
    }
  }

  /** What is stored came from references that were taken. */
  lemma {:induction false} StoredWasDelivered(steps: seq<Step>, ds: seq<Delivery<Product>>, p: int)
    requires (forall i :: 0 <= i < |steps| ==> steps[i].d in ds) && p in Applied(Taken(steps))
    ensures Delivery(p, Applied(Taken(steps))[p]) in ds && Consistent(Applied(Taken(steps))[p].content.barcodes)
  {
    TakenWasDelivered(steps, ds);
    StoredAreConsistent(steps);
    TableIsLatest(Taken(steps));
    assert Latest(Taken(steps), Delivery(p, Applied(Taken(steps))[p]));
  }

  /** A last reference shares nothing with what is stored of another product. */
  lemma {:induction false} LatestIsApart(rest: seq<Step>, ds: seq<Delivery<Product>>, d: Delivery<Product>, p: int)
    requires Unshared(ds) && Latest(ds, d) && p in Applied(Taken(rest)) && p != d.key
    requires forall i :: 0 <= i < |rest| ==> rest[i].d in ds
    ensures !Shares(d.row.content.barcodes, Applied(Taken(rest))[p].content.barcodes)
  {
    StoredWasDelivered(rest, ds, p);
    assert Apart(d, Delivery(p, Applied(Taken(rest))[p]));
  }

  lemma {:induction false} LatestIsNotRefused(rest: seq<Step>, step: Step, ds: seq<Delivery<Product>>)
    requires Unshared(ds) && Latest(ds, step.d) && Grounded(step, step.d)
    requires forall i :: 0 <= i < |rest| ==> rest[i].d in ds
    ensures !ProductApplied(ShelfAfter(rest), step.categories, step.units, step.d).0.Failed?
  {
    var refs := Applied(Taken(rest));
    ShelfMirrors(rest);
    forall p | p in refs && p != step.d.key
      ensures !Shares(step.d.row.content.barcodes, refs[p].content.barcodes)
    {
      LatestIsApart(rest, ds, step.d, p);
    }
    UnsharedIsTaken(ShelfAfter(rest), refs, step);
  }

  lemma {:induction false} TakenWhenGrounded(steps: seq<Step>, ds: seq<Delivery<Product>>, i: nat)
    requires i < |steps| && Unshared(ds) && Latest(ds, steps[i].d) && Grounded(steps[i], steps[i].d)
    requires forall j :: 0 <= j < i ==> steps[j].d in ds
    ensures TakenAt(steps, steps[i].d, i)
  {
    LatestIsNotRefused(steps[..i], steps[i], ds);
  }

  lemma {:induction false} TakenAtIsTaken(steps: seq<Step>, d: Delivery<Product>, i: nat)
    requires i < |steps| && TakenAt(steps, d, i)
    ensures d in Taken(steps)
  {
    TakenIff(steps, d);
  }

  lemma {:induction false} LatestIsTaken(steps: seq<Step>, ds: seq<Delivery<Product>>, d: Delivery<Product>)
    requires Unshared(ds) && Latest(ds, d) && GroundedOnce(steps, d)
    requires forall i :: 0 <= i < |steps| ==> steps[i].d in ds
    ensures d in Taken(steps)
  {
    var i :| 0 <= i < |steps| && Grounded(steps[i], d);
    TakenWhenGrounded(steps, ds, i);
    TakenAtIsTaken(steps, d, i);
  }

  /** While no last reference shares a barcode, every history that delivers them all ends in one shelf. */
  lemma {:induction false} UnsharedSettles(steps: seq<Step>, ds: seq<Delivery<Product>>)
    requires OneContent(ds) && Unshared(ds) && Delivers(steps, ds)
    ensures Mirrors(ShelfAfter(steps), Applied(ds))
  {
    forall d | Latest(ds, d)
      ensures d in Taken(steps)
    {
      LatestIsTaken(steps, ds, d);
    }
    TakenSettles(steps, ds);
  }

  /** A history that takes every last reference ends in the shelf of all. */
  lemma {:induction false} TakenSettles(steps: seq<Step>, ds: seq<Delivery<Product>>)
    requires OneContent(ds) && forall i :: 0 <= i < |steps| ==> steps[i].d in ds
    requires forall d :: Latest(ds, d) ==> d in Taken(steps)
    ensures Mirrors(ShelfAfter(steps), Applied(ds))
  {
    TakenWasDelivered(steps, ds);
    TableOfLatest(ds, Taken(steps));
    ShelfMirrors(steps);
  }

  // ---------- without the condition some history ends elsewhere ----------

  lemma {:induction false} SettledTakesLatest(steps: seq<Step>, ds: seq<Delivery<Product>>, d: Delivery<Product>)
    requires OneContent(ds) && Latest(ds, d) && forall i :: 0 <= i < |steps| ==> steps[i].d in ds
    requires Mirrors(ShelfAfter(steps), Applied(ds))
    ensures d in Taken(steps) && Consistent(d.row.content.barcodes)
  {
    ShelfMirrors(steps);
    LastRow(ds, d);
    var refs := Applied(Taken(steps));
    assert d.key in ShelfAfter(steps).products && ShelfAfter(steps).products[d.key].version == d.row.version;
    StoredWasDelivered(steps, ds, d.key);
    var stored := Delivery(d.key, refs[d.key]);
    TableIsLatest(Taken(steps));
    assert Latest(Taken(steps), stored);
    assert Latest(ds, stored);
  }

  /** The references in this order, with every category and unit known. */
  function Deliveries(ds: seq<Delivery<Product>>, categories: set<int>, units: set<int>): (steps: seq<Step>)
    ensures |steps| == |ds| && forall i :: 0 <= i < |ds| ==> steps[i] == Step(ds[i], categories, units)
  {
    seq(|ds|, i requires 0 <= i < |ds| => Step(ds[i], categories, units))
  }

  function Categories(ds: seq<Delivery<Product>>): set<int> {
    set d | d in ds :: d.row.content.header.category
  }

  function Units(ds: seq<Delivery<Product>>): set<int> {
    set d | d in ds :: d.row.content.header.unit
  }

  lemma {:induction false} AllGrounded(order: seq<Delivery<Product>>, ds: seq<Delivery<Product>>)
    requires SameFacts(order, ds)
    ensures Delivers(Deliveries(order, Categories(ds), Units(ds)), ds)
  {
    var steps := Deliveries(order, Categories(ds), Units(ds));
    forall i | 0 <= i < |steps|
      ensures steps[i].d in ds
    {
      assert order[i] in order;
    }
    forall d | d in ds
      ensures GroundedOnce(steps, d)
    {
      assert d in order;
      var i :| 0 <= i < |order| && order[i] == d;
      assert Grounded(steps[i], d);
    }
  }

  /** Rows of one product, all published, are in the way of a reference of another that shares one of them. */
  lemma {:induction false} SharedClashes(product: int, theirs: seq<Entry>, other: int, mine: seq<Entry>)
    requires product != other && Inserted(map[], product, theirs).Some? && Shares(mine, theirs)
    ensures Inserted(WithoutBarcodes(Inserted(map[], product, theirs).value, other), other, mine).None?
  {
    var rows := Inserted(map[], product, theirs).value;
    InsertedIs(map[], product, theirs);
    var kept := WithoutBarcodes(rows, other);
    var i, j :| 0 <= i < |mine| && 0 <= j < |theirs| && Collide(mine[i], theirs[j]);
    var y := theirs[j];
    assert y in theirs;
    assert y.barcodeId in kept && kept[y.barcodeId] == Barcode(product, y.code, y.active);
    assert Clashes(kept, mine[i]);
    InsertedIff(kept, other, mine);
  }

  /**
   * On an empty shelf a consistent reference is taken, and one of another product that shares a
   * barcode with it is then refused.
   */
  lemma SecondIsRefused(e: Delivery<Product>, d: Delivery<Product>, categories: set<int>, units: set<int>)
    requires e.key != d.key && Consistent(e.row.content.barcodes)
    requires Shares(d.row.content.barcodes, e.row.content.barcodes)
    requires Known(categories, units, e.row.content.header)
    ensures ProductApplied(ProductApplied(NOTHING, categories, units, e).1, categories, units, d).0.Failed?
  {
    assert WithoutBarcodes(map[], e.key) == map[];
    assert WithoutPrices(map[], e.key) == map[];
    InsertedIff(map[], e.key, e.row.content.barcodes);
    SharedClashes(e.key, e.row.content.barcodes, d.key, d.row.content.barcodes);
  }

  lemma {:induction false} SharedIsRefused(ds: seq<Delivery<Product>>, d: Delivery<Product>, e: Delivery<Product>)
    requires d in ds && e in ds && e.key != d.key && !Apart(d, e)
    ensures
      var order := [e, d] + Others(ds, d);
      SameFacts(order, ds) && d !in Taken(Deliveries(order, Categories(ds), Units(ds)))
  {
    var order := [e, d] + Others(ds, d);
    var steps := Deliveries(order, Categories(ds), Units(ds));
    assert steps[..1] == [Step(e, Categories(ds), Units(ds))];
    assert [Step(e, Categories(ds), Units(ds))][..0] == [];
    SecondIsRefused(e, d, Categories(ds), Units(ds));
    assert Refused(steps, 1);
    forall i | 0 <= i < |steps|
      ensures !TakenAt(steps, d, i)
    {
      if i >= 2 {
        assert order[i] in Others(ds, d);
      }
    }
    TakenIff(steps, d);
  }

  lemma {:induction false} SettlesOnlyUnshared(ds: seq<Delivery<Product>>, d: Delivery<Product>)
    requires OneContent(ds) && Settles(ds) && Latest(ds, d)
    ensures Consistent(d.row.content.barcodes) && forall e :: e in ds && e.key != d.key ==> Apart(d, e)
  {
    AllGrounded(ds, ds);
    SettledTakesLatest(Deliveries(ds, Categories(ds), Units(ds)), ds, d);
    forall e | e in ds && e.key != d.key
      ensures Apart(d, e)
    {
      if !Apart(d, e) {
        var order := [e, d] + Others(ds, d);
        SharedIsRefused(ds, d, e);
        AllGrounded(order, ds);
        SettledTakesLatest(Deliveries(order, Categories(ds), Units(ds)), ds, d);
      }
    }
  }

  /**
   * References settle in one shelf, whatever the order, the repeats and the refusals, exactly when no
   * product's last reference collides with itself or with a storable reference of another product.
   */
  lemma {:induction false} SettlesIff(ds: seq<Delivery<Product>>)
    requires OneContent(ds)
    ensures Settles(ds) <==> Unshared(ds)
  {
    if Unshared(ds) {
      forall steps | Delivers(steps, ds)
        ensures Mirrors(ShelfAfter(steps), Applied(ds))
      {
        UnsharedSettles(steps, ds);
      }
    }
    if Settles(ds) {
      forall d | Latest(ds, d)
        ensures Consistent(d.row.content.barcodes) && forall e :: e in ds && e.key != d.key ==> Apart(d, e)
      {
        SettlesOnlyUnshared(ds, d);
      }
    }
  }

  /** Two terminals that were delivered the same unshared references end with the same shelf. */
  lemma {:induction false} UnsharedConverge(a: seq<Step>, b: seq<Step>, ds: seq<Delivery<Product>>)
    requires OneContent(ds) && Unshared(ds) && Delivers(a, ds) && Delivers(b, ds)
    ensures ShelfAfter(a) == ShelfAfter(b)
  {
    UnsharedSettles(a, ds);
    UnsharedSettles(b, ds);
    OneShelf(ShelfAfter(a), ShelfAfter(b), Applied(ds));
  }
}
