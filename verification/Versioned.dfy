/** Version-guarded upserts: what a table keeps of deliveries that may be repeated and reordered. */
module Versioned {

  datatype Row<C> = Row(content: C, version: int)

  datatype Delivery<C> = Delivery(key: int, row: Row<C>)

  /** `insert ... on conflict do update ... where excluded.version > version`. */
  function Upserted<C>(table: map<int, Row<C>>, d: Delivery<C>): map<int, Row<C>> {
    if d.key in table && d.row.version <= table[d.key].version then table else table[d.key := d.row]
  }

  function Applied<C>(ds: seq<Delivery<C>>): map<int, Row<C>> {
    if ds == [] then map[] else Upserted(Applied(ds[..|ds| - 1]), ds[|ds| - 1])
  }

  lemma AppliedMore<C>(ds: seq<Delivery<C>>, d: Delivery<C>)
    ensures Applied(ds + [d]) == Upserted(Applied(ds), d)
  {
    assert (ds + [d])[..|ds|] == ds;
  }

  /** `d` has the greatest version delivered for its key. */
  ghost predicate Latest<C(!new)>(ds: seq<Delivery<C>>, d: Delivery<C>) {
    d in ds && forall e :: e in ds && e.key == d.key ==> e.row.version <= d.row.version
  }

  /** The greatest version of each key names one content. */
  ghost predicate OneContent<C(!new)>(ds: seq<Delivery<C>>) {
    forall d, e :: Latest(ds, d) && Latest(ds, e) && d.key == e.key ==> d == e
  }

  ghost predicate SameFacts<C(!new)>(ds: seq<Delivery<C>>, es: seq<Delivery<C>>) {
    forall d :: d in ds <==> d in es
  }

  /** Any order and any repetition of the same deliveries gives the same table. */
  ghost predicate Converges<C(!new)>(ds: seq<Delivery<C>>) {
    forall es :: SameFacts(ds, es) ==> Applied(es) == Applied(ds)
  }

  /** The table holds, for each key delivered, a delivery of the greatest version. */
  lemma {:induction false} TableIsLatest<C(!new)>(ds: seq<Delivery<C>>)
    ensures forall k :: k in Applied(ds) ==> Latest(ds, Delivery(k, Applied(ds)[k]))
    ensures forall d :: d in ds ==> d.key in Applied(ds)
  {
    if ds != [] {
      var rest, last := ds[..|ds| - 1], ds[|ds| - 1];
      TableIsLatest(rest);
      assert forall d :: d in ds <==> d in rest || d == last;
      forall k | k in Applied(ds)
        ensures Latest(ds, Delivery(k, Applied(ds)[k]))
      {
        assert k != last.key ==> Latest(rest, Delivery(k, Applied(rest)[k]));
        assert k == last.key && k in Applied(rest) ==> Latest(rest, Delivery(k, Applied(rest)[k]));
      }
    }
  }

  /** A table of some deliveries that has every last one is the table of all. */
  lemma {:induction false} TableOfLatest<C(!new)>(ds: seq<Delivery<C>>, es: seq<Delivery<C>>)
    requires OneContent(ds) && (forall e :: e in es ==> e in ds) && (forall d :: Latest(ds, d) ==> d in es)
    ensures Applied(es) == Applied(ds)
  {
    TableIsLatest(ds);
    TableIsLatest(es);
    var a, b := Applied(ds), Applied(es);
    forall k | k in a
      ensures k in b && b[k] == a[k]
    {
      assert Latest(ds, Delivery(k, a[k]));
      assert Delivery(k, a[k]) in es;
      assert Latest(es, Delivery(k, b[k]));
      assert Latest(ds, Delivery(k, b[k]));
    }
    forall k | k in b
      ensures k in a
    {
      assert Delivery(k, b[k]) in ds;
    }
    assert a.Keys == b.Keys;
  }

  lemma TablesOfSameFacts<C(!new)>(ds: seq<Delivery<C>>, es: seq<Delivery<C>>)
    requires OneContent(ds) && SameFacts(ds, es)
    ensures Applied(es) == Applied(ds)
  {
    TableOfLatest(ds, es);
  }

  /** On a tie of the greatest version, the first to arrive stays. */
  lemma {:induction false} FirstStays<C(!new)>(ds: seq<Delivery<C>>, d: Delivery<C>)
    requires ds != [] && ds[0] == d && Latest(ds, d)
    ensures d.key in Applied(ds) && Applied(ds)[d.key] == d.row
  {
    if |ds| > 1 {
      var rest := ds[..|ds| - 1];
      assert forall e :: e in rest ==> e in ds;
      assert rest[0] in rest;
      FirstStays(rest, d);
      assert ds[|ds| - 1] in ds;
    } else {
      assert ds[..0] == [];
    }
  }

  /** Deliveries converge exactly when the greatest version of each key names one content. */
  lemma ConvergesIff<C(!new)>(ds: seq<Delivery<C>>)
    ensures Converges(ds) <==> OneContent(ds)
  {
    if OneContent(ds) {
      forall es | SameFacts(ds, es)
        ensures Applied(es) == Applied(ds)
      {
        TablesOfSameFacts(ds, es);
      }
    }
    if Converges(ds) {
      forall d, e | Latest(ds, d) && Latest(ds, e) && d.key == e.key
        ensures d == e
      {
        assert SameFacts(ds, [d] + ds) && SameFacts(ds, [e] + ds);
        assert Latest([d] + ds, d) && Latest([e] + ds, e);
        FirstStays([d] + ds, d);
        FirstStays([e] + ds, e);
      }
    }
  }

  // ---------- rows of a table ----------

  lemma {:induction false} LastRow<C(!new)>(ds: seq<Delivery<C>>, d: Delivery<C>)
    requires OneContent(ds) && Latest(ds, d)
    ensures d.key in Applied(ds) && Applied(ds)[d.key] == d.row
  {
    TableIsLatest(ds);
    assert Latest(ds, Delivery(d.key, Applied(ds)[d.key]));
  }

  lemma {:induction false} TableRowIn<C(!new)>(ds: seq<Delivery<C>>, k: int)
    requires k in Applied(ds)
    ensures Delivery(k, Applied(ds)[k]) in ds
  {
    TableIsLatest(ds);
    assert Latest(ds, Delivery(k, Applied(ds)[k]));
  }

  lemma SameMap<V>(a: map<int, V>, b: map<int, V>)
    requires (forall k :: k in a ==> k in b && b[k] == a[k]) && forall k :: k in b ==> k in a
    ensures a == b
  {
    forall k | k in a
      ensures k in b && a[k] == b[k]
    {
    }
    forall k | k in b
      ensures k in a
    {
    }
    assert a.Keys == b.Keys;
  }

  /** The deliveries but one. */
  function Others<C(==,!new)>(ds: seq<Delivery<C>>, d: Delivery<C>): (r: seq<Delivery<C>>)
    ensures forall x :: x in r <==> x in ds && x != d
  {
    if ds == [] then []
    else
      var n := |ds| - 1;
      assert forall x :: x in ds <==> x in ds[..n] || x == ds[n];
      Others(ds[..n], d) + if ds[n] == d then [] else [ds[n]]
  }
}
