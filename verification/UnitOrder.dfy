/** Which units of measure leave the same table whatever the order they arrive in. */
module UnitOrder {
  import opened Wrappers
  import opened Versioned
  import opened ReferenceProjection

  /** Stale exactly behind the stored version, refused exactly for a code that another unit holds, stored otherwise. */
  lemma UnitAnswerIs(units: map<int, Row<Unit>>, d: Delivery<Unit>)
    ensures
      var (answer, units') := UnitApplied(units, d);
      var stale := d.key in units && d.row.version <= units[d.key].version;
      var held := exists u :: u in units && u != d.key && units[u].content.code == d.row.content.code;
      && (answer == Stale <==> stale) && (answer == Failed <==> !stale && held) && (answer == Done <==> !stale && !held)
      && units' == if answer == Done then units[d.key := d.row] else units
  {
  }

  predicate UnitRefused(ds: seq<Delivery<Unit>>, i: nat)
    requires i < |ds|
  {
    UnitApplied(UnitsAfter(ds[..i]), ds[i]).0.Failed?
  }

  predicate UnitTakenOnce(ds: seq<Delivery<Unit>>, d: Delivery<Unit>) {
    exists i :: 0 <= i < |ds| && UnitTakenAt(ds, d, i)
  }

  predicate UnitTakenAt(ds: seq<Delivery<Unit>>, d: Delivery<Unit>, i: nat)
    requires i < |ds|
  {
    ds[i] == d && !UnitRefused(ds, i)
  }

  lemma {:induction false} UnitTakenOnceMore(ds: seq<Delivery<Unit>>, d: Delivery<Unit>)
    requires ds != []
    ensures
      var n := |ds| - 1;
      UnitTakenOnce(ds, d) <==> UnitTakenOnce(ds[..n], d) || UnitTakenAt(ds, d, n)
  {
    var n := |ds| - 1;
    forall i | 0 <= i < n
      ensures UnitTakenAt(ds[..n], d, i) <==> UnitTakenAt(ds, d, i)
    {
      assert ds[..n][..i] == ds[..i];
    }
  }

  /** The units taken are those that some delivery was not refused. */
  lemma {:induction false} UnitTakenIff(ds: seq<Delivery<Unit>>, d: Delivery<Unit>)
    ensures d in UnitsTaken(ds) <==> UnitTakenOnce(ds, d)
  {
    if ds != [] {
      UnitTakenIff(ds[..|ds| - 1], d);
      UnitTakenOnceMore(ds, d);
    }
  }

  /** Any order and any repetition of the deliveries ends with the greatest version of each unit. */
  ghost predicate UnitsSettle(ds: seq<Delivery<Unit>>) {
    forall es :: SameFacts(ds, es) ==> UnitsAfter(es) == Applied(ds)
  }

  /** No unit's last code is ever the code of another unit. */
  ghost predicate CodesUnshared(ds: seq<Delivery<Unit>>) {
    forall d, e :: Latest(ds, d) && e in ds && e.key != d.key ==> e.row.content.code != d.row.content.code
  }

  lemma {:induction false} UnitRowWasDelivered(ds: seq<Delivery<Unit>>, k: int)
    requires k in UnitsAfter(ds)
    ensures Delivery(k, UnitsAfter(ds)[k]) in ds
  {
    UnitsAreApplied(ds);
    TableRowIn(UnitsTaken(ds), k);
    UnitTakenIff(ds, Delivery(k, UnitsAfter(ds)[k]));
  }

  lemma {:induction false} LatestUnitIsTaken(ds: seq<Delivery<Unit>>, es: seq<Delivery<Unit>>, d: Delivery<Unit>)
    requires CodesUnshared(ds) && SameFacts(ds, es) && Latest(ds, d)
    ensures d in UnitsTaken(es)
  {
    var i :| 0 <= i < |es| && es[i] == d;
    var units := UnitsAfter(es[..i]);
    forall u | u in units && u != d.key
      ensures units[u].content.code != d.row.content.code
    {
      UnitRowWasDelivered(es[..i], u);
      assert Delivery(u, units[u]) in es;
    }
    assert UnitCodeFree(units, d.key, d.row.content.code);
    assert UnitTakenAt(es, d, i);
    UnitTakenIff(es, d);
  }

  lemma {:induction false} UnsharedUnitsSettle(ds: seq<Delivery<Unit>>, es: seq<Delivery<Unit>>)
    requires OneContent(ds) && CodesUnshared(ds) && SameFacts(ds, es)
    ensures UnitsAfter(es) == Applied(ds)
  {
    forall d | Latest(ds, d)
      ensures d in UnitsTaken(es)
    {
      LatestUnitIsTaken(ds, es, d);
    }
    forall d | d in UnitsTaken(es)
      ensures d in ds
    {
      UnitTakenIff(es, d);
    }
    TableOfLatest(ds, UnitsTaken(es));
    UnitsAreApplied(es);
  }

  /** A unit delivered only after another that has its code is not stored. */
  lemma {:induction false} SecondUnitIsRefused(ds: seq<Delivery<Unit>>, d: Delivery<Unit>, e: Delivery<Unit>)
    requires e.key != d.key && e.row.content.code == d.row.content.code
    ensures d !in UnitsTaken([e, d] + Others(ds, d))
  {
    var order := [e, d] + Others(ds, d);
    assert order[..1] == [e] && [e][..0] == [];
    assert UnitsAfter([e]) == map[e.key := e.row];
    assert UnitRefused(order, 1);
    forall i | 0 <= i < |order|
      ensures !UnitTakenAt(order, d, i)
    {
      if i >= 2 {
        assert order[i] in Others(ds, d);
      }
    }
    UnitTakenIff(order, d);
  }

  lemma {:induction false} SettledTakesLatestUnit(ds: seq<Delivery<Unit>>, es: seq<Delivery<Unit>>, d: Delivery<Unit>)
    requires OneContent(ds) && Latest(ds, d) && UnitsAfter(es) == Applied(ds)
    ensures d in UnitsTaken(es)
  {
    LastRow(ds, d);
    UnitsAreApplied(es);
    TableRowIn(UnitsTaken(es), d.key);
  }

  /** Units settle, whatever the order and the repeats, exactly when no last code is ever another unit's. */
  lemma {:induction false} UnitsSettleIff(ds: seq<Delivery<Unit>>)
    requires OneContent(ds)
    ensures UnitsSettle(ds) <==> CodesUnshared(ds)
  {
    if CodesUnshared(ds) {
      forall es | SameFacts(ds, es)
        ensures UnitsAfter(es) == Applied(ds)
      {
        UnsharedUnitsSettle(ds, es);
      }
    }
    if UnitsSettle(ds) {
      forall d, e | Latest(ds, d) && e in ds && e.key != d.key
        ensures e.row.content.code != d.row.content.code
      {
        if e.row.content.code == d.row.content.code {
          var order := [e, d] + Others(ds, d);
          assert SameFacts(ds, order);
          SecondUnitIsRefused(ds, d, e);
          SettledTakesLatestUnit(ds, order, d);
        }
      }
    }
  }

  function UnitVersion(unit: int, version: int, code: int): Delivery<Unit> {
    Delivery(unit, Row(Unit(code, "", 0, true), version))
  }

  /** Two units exchange their codes by way of a third one, which a new unit then takes; it comes early. */
  const UNITS_ARRIVAL := [
    UnitVersion(1, 1, 24), UnitVersion(2, 1, 25), UnitVersion(4, 1, 26),
    UnitVersion(1, 2, 26), UnitVersion(2, 2, 24), UnitVersion(1, 3, 25)]

  const UNITS_STUCK := map[1 := Row(Unit(24, "", 0, true), 1), 2 := Row(Unit(25, "", 0, true), 1),
                           4 := Row(Unit(26, "", 0, true), 1)]

  lemma UnitsFirstThree()
    ensures UnitsAfter(UNITS_ARRIVAL[..3]) == UNITS_STUCK
  {
    var ds := UNITS_ARRIVAL;
    assert ds[..3][..2] == ds[..2] && ds[..2][..1] == ds[..1] && ds[..1][..0] == [];
    assert UnitsAfter(ds[..1]) == map[1 := ds[0].row];
    assert UnitsAfter(ds[..2]) == map[1 := ds[0].row, 2 := ds[1].row];
  }

  lemma UnitsStayStuck(d: Delivery<Unit>)
    requires d in UNITS_ARRIVAL
    ensures UnitApplied(UNITS_STUCK, d).1 == UNITS_STUCK
  {
    assert 1 in UNITS_STUCK && UNITS_STUCK[1].content.code == 24;
    assert 2 in UNITS_STUCK && UNITS_STUCK[2].content.code == 25;
    assert 4 in UNITS_STUCK && UNITS_STUCK[4].content.code == 26;
  }

  /** However often a unit is delivered again, two stay at their first version. */
  lemma {:induction false} RetryingUnitsIsNotEnough(more: seq<Delivery<Unit>>)
    requires forall i :: 0 <= i < |more| ==> more[i] in UNITS_ARRIVAL
    ensures UnitsAfter(UNITS_ARRIVAL[..3] + more) == UNITS_STUCK
  {
    if more == [] {
      UnitsFirstThree();
      assert UNITS_ARRIVAL[..3] + more == UNITS_ARRIVAL[..3];
    } else {
      var n := |more| - 1;
      RetryingUnitsIsNotEnough(more[..n]);
      UnitsStayStuck(more[n]);
      assert (UNITS_ARRIVAL[..3] + more)[..n + 3] == UNITS_ARRIVAL[..3] + more[..n];
    }
  }
}
