/** Stable sorting of rows, as Array.sort and a query's `order by` over rows in table order do it. */
module Sorting {

  ghost predicate TotalPreorder<T(!new)>(leq: (T, T) -> bool) {
    && (forall a, b :: leq(a, b) || leq(b, a))
    && (forall a, b, c :: leq(a, b) && leq(b, c) ==> leq(a, c))
  }

  function Insert<T>(x: T, rows: seq<T>, leq: (T, T) -> bool): seq<T> {
    if rows == [] || leq(x, rows[0]) then [x] + rows else [rows[0]] + Insert(x, rows[1..], leq)
  }

  function Sort<T>(rows: seq<T>, leq: (T, T) -> bool): seq<T> {
    if rows == [] then [] else Insert(rows[0], Sort(rows[1..], leq), leq)
  }

  function Filter<T>(rows: seq<T>, keep: T -> bool): seq<T> {
    if rows == [] then [] else (if keep(rows[0]) then [rows[0]] else []) + Filter(rows[1..], keep)
  }

  ghost predicate Ordered<T>(rows: seq<T>, leq: (T, T) -> bool) {
    forall i, j :: 0 <= i < j < |rows| ==> leq(rows[i], rows[j])
  }

  lemma {:induction false} InsertPermutes<T(!new)>(x: T, rows: seq<T>, leq: (T, T) -> bool)
    ensures multiset(Insert(x, rows, leq)) == multiset(rows) + multiset{x}
    ensures forall y :: y in Insert(x, rows, leq) <==> y == x || y in rows
  {
    if rows != [] && !leq(x, rows[0]) {
      InsertPermutes(x, rows[1..], leq);
      assert rows == [rows[0]] + rows[1..];
    }
  }

  lemma PrependOrdered<T(!new)>(first: T, rows: seq<T>, leq: (T, T) -> bool)
    requires Ordered(rows, leq) && forall y :: y in rows ==> leq(first, y)
    ensures Ordered([first] + rows, leq)
  {
  }

  lemma {:induction false} InsertKeeps<T(!new)>(x: T, rows: seq<T>, leq: (T, T) -> bool)
    requires TotalPreorder(leq) && Ordered(rows, leq)
    ensures Ordered(Insert(x, rows, leq), leq)
  {
    if rows == [] {
    } else if leq(x, rows[0]) {
      HeadLeads(x, rows, leq);
      PrependOrdered(x, rows, leq);
    } else {
      var tail := Insert(x, rows[1..], leq);
      InsertKeeps(x, rows[1..], leq);
      InsertPermutes(x, rows[1..], leq);
      assert forall y :: y in rows[1..] ==> leq(rows[0], y);
      PrependOrdered(rows[0], tail, leq);
    }
  }

  lemma {:induction false} SortIs<T(!new)>(rows: seq<T>, leq: (T, T) -> bool)
    requires TotalPreorder(leq)
    ensures Ordered(Sort(rows, leq), leq) && multiset(Sort(rows, leq)) == multiset(rows)
  {
    if rows != [] {
      SortIs(rows[1..], leq);
      InsertKeeps(rows[0], Sort(rows[1..], leq), leq);
      InsertPermutes(rows[0], Sort(rows[1..], leq), leq);
      assert rows == [rows[0]] + rows[1..];
    }
  }

  lemma HeadLeads<T(!new)>(x: T, rows: seq<T>, leq: (T, T) -> bool)
    requires TotalPreorder(leq) && Ordered(rows, leq) && rows != [] && leq(x, rows[0])
    ensures forall y :: y in rows ==> leq(x, y)
  {
  }

  lemma InsertFirst<T(!new)>(x: T, rows: seq<T>, leq: (T, T) -> bool)
    requires forall y :: y in rows ==> leq(x, y)
    ensures Insert(x, rows, leq) == [x] + rows
  {
  }

  lemma SortMembers<T(!new)>(rows: seq<T>, leq: (T, T) -> bool)
    requires TotalPreorder(leq)
    ensures forall y :: y in Sort(rows, leq) <==> y in rows
  {
    SortIs(rows, leq);
    assert forall y :: y in Sort(rows, leq) <==> y in multiset(Sort(rows, leq));
    assert forall y :: y in rows <==> y in multiset(rows);
  }

  lemma FilterOne<T(!new)>(x: T, rows: seq<T>, keep: T -> bool)
    ensures Filter([x] + rows, keep) == if keep(x) then [x] + Filter(rows, keep) else Filter(rows, keep)
  {
  }

  lemma {:induction false} FilterMembers<T(!new)>(rows: seq<T>, keep: T -> bool)
    ensures forall x :: x in Filter(rows, keep) <==> x in rows && keep(x)
  {
    if rows != [] {
      FilterMembers(rows[1..], keep);
    }
  }

  lemma {:induction false} FilterOfInsert<T(!new)>(x: T, rows: seq<T>, leq: (T, T) -> bool, keep: T -> bool)
    requires TotalPreorder(leq) && Ordered(rows, leq)
    ensures Filter(Insert(x, rows, leq), keep)
      == if keep(x) then Insert(x, Filter(rows, keep), leq) else Filter(rows, keep)
  {
    if rows == [] {
      FilterOne(x, rows, keep);
    } else if leq(x, rows[0]) {
      HeadLeads(x, rows, leq);
      FilterOne(x, rows, keep);
      FilterMembers(rows, keep);
      InsertFirst(x, Filter(rows, keep), leq);
    } else {
      FilterOfInsert(x, rows[1..], leq, keep);
      FilterOne(rows[0], Insert(x, rows[1..], leq), keep);
      FilterOne(rows[0], rows[1..], keep);
      assert rows == [rows[0]] + rows[1..];
    }
  }

  /** Filtering sorted rows is sorting the filtered ones, ties included. */
  lemma {:induction false} FilterOfSort<T(!new)>(rows: seq<T>, leq: (T, T) -> bool, keep: T -> bool)
    requires TotalPreorder(leq)
    ensures Filter(Sort(rows, leq), keep) == Sort(Filter(rows, keep), leq)
  {
    if rows != [] {
      FilterOfSort(rows[1..], leq, keep);
      SortIs(rows[1..], leq);
      FilterOfInsert(rows[0], Sort(rows[1..], leq), leq, keep);
      FilterOne(rows[0], rows[1..], keep);
      assert rows == [rows[0]] + rows[1..];
      SortOne(rows[0], Filter(rows[1..], keep), leq);
    }
  }

  lemma SortOne<T(!new)>(x: T, rows: seq<T>, leq: (T, T) -> bool)
    ensures Sort([x] + rows, leq) == Insert(x, Sort(rows, leq), leq)
  {
  }

  /** Two orders that agree on the rows sort them alike. */
  lemma {:induction false} SortAgrees<T(!new)>(rows: seq<T>, a: (T, T) -> bool, b: (T, T) -> bool)
    requires TotalPreorder(a) && forall x, y :: x in rows && y in rows ==> a(x, y) == b(x, y)
    ensures Sort(rows, a) == Sort(rows, b)
  {
    if rows != [] {
      SortAgrees(rows[1..], a, b);
      SortMembers(rows[1..], a);
      InsertAgrees(rows[0], Sort(rows[1..], a), a, b);
    }
  }

  lemma {:induction false} InsertAgrees<T(!new)>(x: T, rows: seq<T>, a: (T, T) -> bool, b: (T, T) -> bool)
    requires forall y :: y in rows ==> a(x, y) == b(x, y)
    ensures Insert(x, rows, a) == Insert(x, rows, b)
  {
    if rows != [] && !a(x, rows[0]) {
      InsertAgrees(x, rows[1..], a, b);
    }
  }

  /** Rows already in order stay as they are. */
  lemma {:induction false} SortedStays<T(!new)>(rows: seq<T>, leq: (T, T) -> bool)
    requires Ordered(rows, leq)
    ensures Sort(rows, leq) == rows
  {
    if rows != [] {
      SortedStays(rows[1..], leq);
      assert forall y :: y in rows[1..] ==> leq(rows[0], y);
      InsertFirst(rows[0], rows[1..], leq);
    }
  }

  lemma {:induction false} FilterOfSum<T(!new)>(a: seq<T>, b: seq<T>, keep: T -> bool)
    ensures Filter(a + b, keep) == Filter(a, keep) + Filter(b, keep)
  {
    if a == [] {
      assert [] + b == b;
    } else {
      FilterOfSum(a[1..], b, keep);
      FilterOne(a[0], a[1..] + b, keep);
      FilterOne(a[0], a[1..], keep);
      assert a + b == [a[0]] + (a[1..] + b) && a == [a[0]] + a[1..];
    }
  }

  lemma {:induction false} FilterTwice<T(!new)>(rows: seq<T>, a: T -> bool, b: T -> bool)
    ensures Filter(Filter(rows, a), b) == Filter(Filter(rows, b), a)
  {
    if rows != [] {
      FilterTwice(rows[1..], a, b);
      FilterOne(rows[0], rows[1..], a);
      FilterOne(rows[0], rows[1..], b);
      FilterOne(rows[0], Filter(rows[1..], a), b);
      FilterOne(rows[0], Filter(rows[1..], b), a);
      assert rows == [rows[0]] + rows[1..];
    }
  }

  lemma {:induction false} FilterAll<T(!new)>(rows: seq<T>, keep: T -> bool)
    requires forall x :: x in rows ==> keep(x)
    ensures Filter(rows, keep) == rows
  {
    if rows != [] {
      FilterAll(rows[1..], keep);
    }
  }

  lemma {:induction false} FilterNone<T(!new)>(rows: seq<T>, keep: T -> bool)
    requires forall x :: x in rows ==> !keep(x)
    ensures Filter(rows, keep) == []
  {
    if rows != [] {
      FilterNone(rows[1..], keep);
    }
  }
}
