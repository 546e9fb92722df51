/** The rows of a query with `order by ... limit n`, when the ordering columns identify the row. */
module Selection {

  ghost predicate StrictTotalOn<T(!new)>(ids: set<T>, before: (T, T) -> bool) {
    && (forall a, b :: before(a, b) ==> !before(b, a))
    && (forall a, b, c :: before(a, b) && before(b, c) ==> before(a, c))
    && (forall a, b :: a in ids && b in ids && a != b ==> before(a, b) || before(b, a))
  }

  predicate Leads<T(==)>(least: T, ids: set<T>, before: (T, T) -> bool) {
    least in ids && forall x :: x in ids && x != least ==> before(least, x)
  }

  lemma {:induction false} HasLeast<T(!new)>(ids: set<T>, before: (T, T) -> bool)
    requires StrictTotalOn(ids, before) && ids != {}
    ensures exists least :: Leads(least, ids, before)
    decreases |ids|
  {
    var one :| one in ids;
    var rest := ids - {one};
    if rest == {} {
      assert ids == {one} + rest;
      assert Leads(one, ids, before);
    } else {
      HasLeast(rest, before);
      var next :| Leads(next, rest, before);
      assert Leads(if before(next, one) then next else one, ids, before);
    }
  }

  lemma LeastOf<T(!new)>(ids: set<T>, before: (T, T) -> bool) returns (least: T)
    requires StrictTotalOn(ids, before) && ids != {}
    ensures Leads(least, ids, before)
  {
    HasLeast(ids, before);
    least :| Leads(least, ids, before);
  }

  /** `ids` in increasing order. */
  function Arrange<T(!new)>(ids: set<T>, before: (T, T) -> bool): (rows: seq<T>)
    requires StrictTotalOn(ids, before)
    ensures |rows| == |ids|
    ensures forall x :: x in rows <==> x in ids
    ensures forall i, j :: 0 <= i < j < |rows| ==> before(rows[i], rows[j])
    decreases |ids|
  {
    if ids == {} then []
    else
      HasLeast(ids, before);
      var least :| least in ids && Leads(least, ids, before);
      [least] + Arrange(ids - {least}, before)
  }

  predicate Smallest(least: int, ids: set<int>) {
    least in ids && forall x :: x in ids ==> least <= x
  }

  lemma HasSmallest(ids: set<int>)
    requires ids != {}
    ensures exists least :: Smallest(least, ids)
  {
    var before := (a: int, b: int) => a < b;
    var least := LeastOf(ids, before);
    assert forall x :: x in ids && x != least ==> before(least, x);
    assert Smallest(least, ids);
  }

  /** Numbers in increasing order. */
  function Ascending(ids: set<int>): (rows: seq<int>)
    ensures |rows| == |ids|
    ensures forall x :: x in rows <==> x in ids
    ensures forall i, j :: 0 <= i < j < |rows| ==> rows[i] < rows[j]
    decreases |ids|
  {
    if ids == {} then []
    else
      HasSmallest(ids);
      var least :| least in ids && Smallest(least, ids);
      var rest := Ascending(ids - {least});
      assert forall x :: x in rest ==> least < x;
      [least] + rest
  }

  /** SQLite's `limit`: a negative bound is no bound. */
  function FirstRows<T>(rows: seq<T>, limit: int): seq<T> {
    if 0 <= limit < |rows| then rows[..limit] else rows
  }
}
