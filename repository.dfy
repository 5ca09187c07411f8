/** The parts of the storage collaborator the service relies on when it lists and counts:
    keeping the rows a specification admits, and cutting one page out of an ordered result. */
module Repository {
  import opened ShipModel
  import opened ShipSpecifications

  /** The rows of `rows` that `spec` admits, in their original order. */
  function Filtered(rows: seq<ShipData>, spec: Option<Predicate>): (r: seq<ShipData>)
    ensures |r| <= |rows|
    ensures forall s :: s in r <==> s in rows && Matches(spec, s)
    ensures spec.None? ==> r == rows
  {
    if rows == [] then []
    else if Matches(spec, rows[0]) then [rows[0]] + Filtered(rows[1..], spec)
    else Filtered(rows[1..], spec)
  }

  /** Filtering keeps the order of the rows: filtering two runs of rows one after the other
      is filtering each run and putting the results one after the other. */
  lemma {:induction false} FilteredKeepsOrder(a: seq<ShipData>, b: seq<ShipData>, spec: Option<Predicate>)
    ensures Filtered(a + b, spec) == Filtered(a, spec) + Filtered(b, spec)
  {
    if a == [] {
      assert a + b == b;
    } else {
      var ab := a + b;
      assert ab[0] == a[0];
      assert ab[1..] == a[1..] + b;
      FilteredKeepsOrder(a[1..], b, spec);
      var head := if Matches(spec, a[0]) then [a[0]] else [];
      assert Filtered(ab, spec) == head + Filtered(a[1..] + b, spec);
      assert Filtered(a, spec) == head + Filtered(a[1..], spec);
    }
  }

  /** Page `pageNumber` (counted from 0) of `pageSize` rows: the rows from position
      `pageNumber * pageSize` on, at most `pageSize` of them; empty past the end. */
  function PageOf(rows: seq<ShipData>, pageNumber: nat, pageSize: nat): (page: seq<ShipData>)
    requires pageSize >= 1
    ensures |page| <= pageSize
    ensures pageNumber * pageSize >= |rows| ==> page == []
    ensures pageNumber * pageSize < |rows| ==>
      |page| == if |rows| - pageNumber * pageSize < pageSize then |rows| - pageNumber * pageSize else pageSize
    ensures forall i :: 0 <= i < |page| ==>
      pageNumber * pageSize + i < |rows| && page[i] == rows[pageNumber * pageSize + i]
    ensures forall s :: s in page ==> s in rows
  {
    var start := pageNumber * pageSize;
    if start >= |rows| then []
    else if start + pageSize <= |rows| then rows[start..start + pageSize]
    else rows[start..]
  }

  /** The first page holds the first `pageSize` rows, or all of them when there are fewer. */
  lemma FirstPageIsPrefix(rows: seq<ShipData>, pageSize: nat)
    requires pageSize >= 1
    ensures PageOf(rows, 0, pageSize) == rows[..if |rows| < pageSize then |rows| else pageSize]
  {
  }

  /** Each row lies on exactly one page: row `j` is entry `j % pageSize` of page `j / pageSize`. */
  lemma RowOnItsPage(rows: seq<ShipData>, pageSize: nat, j: nat)
    requires pageSize >= 1 && j < |rows|
    ensures j % pageSize < |PageOf(rows, j / pageSize, pageSize)|
    ensures PageOf(rows, j / pageSize, pageSize)[j % pageSize] == rows[j]
  {
    var n := j / pageSize;
    assert n * pageSize + j % pageSize == j;
    assert n * pageSize <= j;
  }

  /** How many copies of each row the filtered rows hold: all of them when admitted, none otherwise. */
  lemma {:induction false} FilteredMultiset(rows: seq<ShipData>, spec: Option<Predicate>, s: ShipData)
    ensures multiset(Filtered(rows, spec))[s] == if Matches(spec, s) then multiset(rows)[s] else 0
  {
    if rows != [] {
      FilteredMultiset(rows[1..], spec, s);
      assert rows == [rows[0]] + rows[1..];
    }
  }

  /** The number of admitted rows does not depend on the order the rows come in. */
  lemma FilteredCountIgnoresOrder(a: seq<ShipData>, b: seq<ShipData>, spec: Option<Predicate>)
    requires multiset(a) == multiset(b)
    ensures |Filtered(a, spec)| == |Filtered(b, spec)|
  {
    forall s | true
      ensures multiset(Filtered(a, spec))[s] == multiset(Filtered(b, spec))[s]
    {
      FilteredMultiset(a, spec, s);
      FilteredMultiset(b, spec, s);
    }
    assert multiset(Filtered(a, spec)) == multiset(Filtered(b, spec));
    assert |multiset(Filtered(a, spec))| == |Filtered(a, spec)|;
    assert |multiset(Filtered(b, spec))| == |Filtered(b, spec)|;
  }

  /** A narrower query never admits more rows. */
  lemma {:induction false} NarrowingNeverCountsMore(rows: seq<ShipData>, q2: Query, q1: Query)
    requires Narrows(q2, q1)
    ensures |Filtered(rows, FullSpecification(q2))| <= |Filtered(rows, FullSpecification(q1))|
  {
    if rows != [] {
      NarrowingNeverCountsMore(rows[1..], q2, q1);
      if Matches(FullSpecification(q2), rows[0]) {
        NarrowingNeverEnlarges(q2, q1, rows[0]);
      }
    }
  }
}
