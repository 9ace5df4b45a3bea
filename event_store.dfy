/** The append-only event table behind `AggregateBase` (and the users
    example's `EventSourcingBase`, whose `InsertEvent` issues the same
    INSERT): one row per event, an auto-increment row id assigned by the
    database, and the ordered read `WHERE aggregate_id = ? ORDER BY
    created_utc, id`. */
module EventStore {
  import opened Common

  /** One stored event. `data` is the parsed `event_data` column: JSON
      serialisation is taken to round-trip, so the typed payload is stored. */
  datatype EventRow<P> = EventRow(id: nat, aggregateId: string, eventType: string, data: P, createdUtc: int)

  /** The sort key `(created_utc, id)`, compared lexicographically. */
  predicate KeyLe<P>(a: EventRow<P>, b: EventRow<P>) {
    a.createdUtc < b.createdUtc || (a.createdUtc == b.createdUtc && a.id <= b.id)
  }

  predicate SortedByKey<P>(s: seq<EventRow<P>>) {
    forall i, j :: 0 <= i < j < |s| ==> KeyLe(s[i], s[j])
  }

  /** `WHERE aggregate_id = ?`: the rows of one aggregate, in table order. */
  function RowsOf<P>(rows: seq<EventRow<P>>, aggregateId: string): (r: seq<EventRow<P>>)
    ensures forall i :: 0 <= i < |r| ==> r[i].aggregateId == aggregateId
    ensures forall i :: 0 <= i < |rows| && rows[i].aggregateId == aggregateId ==> rows[i] in r
    ensures multiset(r) <= multiset(rows)
  {
    if rows == [] then []
    else
      var init, last := rows[..|rows| - 1], rows[|rows| - 1];
      assert rows == init + [last];
      var rest := RowsOf(init, aggregateId);
      if last.aggregateId == aggregateId then rest + [last] else rest
  }

  /** Inserts `x` into a key-sorted sequence, after every row whose key is not greater. */
  function Insert<P>(s: seq<EventRow<P>>, x: EventRow<P>): (r: seq<EventRow<P>>)
    ensures multiset(r) == multiset(s) + multiset{x}
    decreases |s|
  {
    if s == [] then [x]
    else
      var init, last := s[..|s| - 1], s[|s| - 1];
      assert s == init + [last];
      if KeyLe(last, x) then s + [x] else Insert(init, x) + [last]
  }

  /** A sorted sequence stays sorted when a row not below any of its keys is added at the end. */
  lemma SortedSnoc<P>(a: seq<EventRow<P>>, y: EventRow<P>)
    requires SortedByKey(a)
    requires forall z :: z in a ==> KeyLe(z, y)
    ensures SortedByKey(a + [y])
  {
    forall i, j | 0 <= i < j < |a + [y]| ensures KeyLe((a + [y])[i], (a + [y])[j]) {
      assert (a + [y])[i] == a[i];
      if j == |a| {
        assert a[i] in a;
      }
    }
  }

  lemma {:induction false} InsertSorted<P>(s: seq<EventRow<P>>, x: EventRow<P>)
    requires SortedByKey(s)
    ensures SortedByKey(Insert(s, x))
    decreases |s|
  {
    if s != [] {
      var init, last := s[..|s| - 1], s[|s| - 1];
      assert s == init + [last];
      forall z | z in s ensures KeyLe(z, last) {
        var k :| 0 <= k < |s| && s[k] == z;
        if k < |s| - 1 {
          assert KeyLe(s[k], s[|s| - 1]);
        }
      }
      if KeyLe(last, x) {
        SortedSnoc(s, x);
      } else {
        assert SortedByKey(init) by {
          forall i, j | 0 <= i < j < |init| ensures KeyLe(init[i], init[j]) {
            assert init[i] == s[i] && init[j] == s[j];
          }
        }
        InsertSorted(init, x);
        forall y | y in Insert(init, x) ensures KeyLe(y, last) {
          assert y in multiset(Insert(init, x));
          if y != x {
            assert y in multiset(init);
            assert y in s;
          }
        }
        SortedSnoc(Insert(init, x), last);
      }
    }
  }

  /** `ORDER BY created_utc, id`: insertion sort on the key. */
  function SortByKey<P>(s: seq<EventRow<P>>): (r: seq<EventRow<P>>)
    ensures multiset(r) == multiset(s)
    ensures SortedByKey(r)
  {
    if s == [] then []
    else
      assert s == s[..|s| - 1] + [s[|s| - 1]];
      InsertSorted(SortByKey(s[..|s| - 1]), s[|s| - 1]);
      Insert(SortByKey(s[..|s| - 1]), s[|s| - 1])
  }

  /** What `GetById` reads: the rows of one aggregate, in `(created_utc, id)` order. */
  function SelectOrdered<P>(rows: seq<EventRow<P>>, aggregateId: string): (r: seq<EventRow<P>>)
    ensures SortedByKey(r)
    ensures forall i :: 0 <= i < |r| ==> r[i].aggregateId == aggregateId
    ensures multiset(r) == multiset(RowsOf(rows, aggregateId))
  {
    var r := SortByKey(RowsOf(rows, aggregateId));
    forall i | 0 <= i < |r| ensures r[i].aggregateId == aggregateId {
      assert r[i] in multiset(r);
    }
    r
  }

  /** Sorting rows that are already in key order leaves them unchanged. */
  lemma {:induction false} SortSorted<P>(s: seq<EventRow<P>>)
    requires SortedByKey(s)
    ensures SortByKey(s) == s
  {
    if s != [] {
      var init, last := s[..|s| - 1], s[|s| - 1];
      assert init + [last] == s;
      assert SortedByKey(init) by {
        forall i, j | 0 <= i < j < |init| ensures KeyLe(init[i], init[j]) {
          assert init[i] == s[i] && init[j] == s[j];
        }
      }
      SortSorted(init);
      assert SortByKey(s) == Insert(init, last);
      if init != [] {
        assert KeyLe(init[|init| - 1], last);
        assert Insert(init, last) == init + [last];
      }
    }
  }

  /** Selecting the rows of one aggregate from a key-sorted table keeps them sorted. */
  lemma {:induction false} RowsOfSorted<P>(rows: seq<EventRow<P>>, aggregateId: string)
    requires SortedByKey(rows)
    ensures SortedByKey(RowsOf(rows, aggregateId))
  {
    if rows != [] {
      var init, last := rows[..|rows| - 1], rows[|rows| - 1];
      RowsOfSorted(init, aggregateId);
      var rest := RowsOf(init, aggregateId);
      forall y | y in rest ensures KeyLe(y, last) {
        assert y in multiset(rest);
        assert y in multiset(init);
        var k :| 0 <= k < |init| && init[k] == y;
        assert rows[k] == y;
      }
    }
  }

  lemma RowsOfAppend<P>(rows: seq<EventRow<P>>, x: EventRow<P>, aggregateId: string)
    ensures RowsOf(rows + [x], aggregateId)
         == RowsOf(rows, aggregateId) + (if x.aggregateId == aggregateId then [x] else [])
  {
    assert (rows + [x])[..|rows|] == rows;
  }

  /** Appending a row of another aggregate does not change what this aggregate reads. */
  lemma SelectOrderedAppendOther<P>(rows: seq<EventRow<P>>, x: EventRow<P>, aggregateId: string)
    requires x.aggregateId != aggregateId
    ensures SelectOrdered(rows + [x], aggregateId) == SelectOrdered(rows, aggregateId)
  {
    RowsOfAppend(rows, x, aggregateId);
  }

  /** A row whose key is not below the key of any row of its aggregate is read last. */
  lemma {:induction false} SelectOrderedAppendLatest<P>(rows: seq<EventRow<P>>, x: EventRow<P>)
    requires forall i :: 0 <= i < |rows| && rows[i].aggregateId == x.aggregateId ==> KeyLe(rows[i], x)
    ensures SelectOrdered(rows + [x], x.aggregateId) == SelectOrdered(rows, x.aggregateId) + [x]
  {
    var a := x.aggregateId;
    var f := RowsOf(rows, a);
    RowsOfAppend(rows, x, a);
    assert (f + [x])[..|f|] == f && (f + [x])[|f|] == x;
    var sorted := SortByKey(f);
    assert SortByKey(f + [x]) == Insert(sorted, x);
    if sorted != [] {
      var last := sorted[|sorted| - 1];
      assert last in multiset(f) by {
        assert last in multiset(sorted);
      }
      var j :| 0 <= j < |f| && f[j] == last;
      assert last in multiset(rows);
      var k :| 0 <= k < |rows| && rows[k] == last;
      assert KeyLe(rows[k], x);
    }
  }

  /** An event table: its rows in insertion order and the next auto-increment id. */
  class EventTable<P> {
    var rows: seq<EventRow<P>>
    var nextId: nat

    /** Row ids increase in insertion order and are all below `nextId`. */
    ghost predicate Valid()
      reads this
    {
      && (forall i :: 0 <= i < |rows| ==> rows[i].id < nextId)
      && (forall i, j :: 0 <= i < j < |rows| ==> rows[i].id < rows[j].id)
    }

    constructor ()
      ensures Valid() && rows == [] && nextId == 1
    {
      rows := [];
      nextId := 1;
    }

    /** `InsertEvent`: appends exactly one row; the rows already stored are
        untouched. When the INSERT is rejected (`fault`, the database's
        answer) the call throws and nothing is stored. */
    method InsertEvent(aggregateId: string, eventType: string, data: P, now: int, fault: Option<string>)
      returns (r: Result<()>)
      requires Valid()
      modifies this
      ensures Valid()
      ensures fault.None? ==> r == Ok(())
      ensures fault.Some? ==> r == Err(Storage(fault.value)) && rows == old(rows) && nextId == old(nextId)
      ensures fault.None? ==> rows == old(rows) + [EventRow(old(nextId), aggregateId, eventType, data, now)]
      ensures fault.None? ==> nextId > old(nextId)
    {
      if fault.Some? {
        return Err(Storage(fault.value));
      }
      rows := rows + [EventRow(nextId, aggregateId, eventType, data, now)];
      nextId := nextId + 1;
      r := Ok(());
    }
  }

  /** No stored row of the aggregate is later than `now`. */
  ghost predicate NotLaterThan<P>(rows: seq<EventRow<P>>, aggregateId: string, now: int) {
    forall i :: 0 <= i < |rows| && rows[i].aggregateId == aggregateId ==> rows[i].createdUtc <= now
  }

  /** With a clock that does not run backwards, the event just inserted is the
      last one its aggregate reads back, after all the earlier ones. */
  lemma InsertedReadLast<P>(rows: seq<EventRow<P>>, nextId: nat, aggregateId: string,
                            eventType: string, data: P, now: int)
    requires forall i :: 0 <= i < |rows| ==> rows[i].id < nextId
    requires NotLaterThan(rows, aggregateId, now)
    ensures var x := EventRow(nextId, aggregateId, eventType, data, now);
            SelectOrdered(rows + [x], aggregateId) == SelectOrdered(rows, aggregateId) + [x]
  {
    var x := EventRow(nextId, aggregateId, eventType, data, now);
    SelectOrderedAppendLatest(rows, x);
  }

  /** The first row stored for an aggregate is all that it reads back; after any
      insert the aggregate reads back at least one row. */
  lemma InsertedFirst<P>(rows: seq<EventRow<P>>, x: EventRow<P>)
    ensures SelectOrdered(rows + [x], x.aggregateId) != []
    ensures (forall i :: 0 <= i < |rows| ==> rows[i].aggregateId != x.aggregateId) ==>
              SelectOrdered(rows + [x], x.aggregateId) == [x]
  {
    var a := x.aggregateId;
    RowsOfAppend(rows, x, a);
    assert x in multiset(RowsOf(rows + [x], a));
    if forall i :: 0 <= i < |rows| ==> rows[i].aggregateId != a {
      assert RowsOf(rows + [x], a) == [x];
    }
  }
}
