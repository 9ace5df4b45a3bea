/** `AggregateBase`: rehydrates an aggregate by reading its rows in
    `(created_utc, id)` order and folding them, left to right, through the
    apply function registered for each row's event type. The registry
    (`ApplyFunctions`) is a map from event type to a reducer tag `R`, and
    `apply` runs the reducer a tag names; a reducer that throws yields `Err`. */
module AggregateBase {
  import opened Common
  import opened EventStore

  /** One iteration of the loop: find the row's apply function, or fail. */
  function ApplyRow<P, R, S>(applyFunctions: map<string, R>, apply: (R, S, P, int) -> Result<S>,
                             state: S, row: EventRow<P>): (r: Result<S>)
    ensures row.eventType !in applyFunctions ==> r == Err(UnknownEventType(row.eventType))
  {
    if row.eventType !in applyFunctions then Err(UnknownEventType(row.eventType))
    else apply(applyFunctions[row.eventType], state, row.data, row.createdUtc)
  }

  /** The left fold of the registered reducers over `rows`, starting from `state`;
      the first failure ends it. */
  function Fold<P, R, S>(rows: seq<EventRow<P>>, applyFunctions: map<string, R>,
                         apply: (R, S, P, int) -> Result<S>, state: S): Result<S>
  {
    if rows == [] then Ok(state)
    else
      match ApplyRow(applyFunctions, apply, state, rows[0])
      case Err(e) => Err(e)
      case Ok(next) => Fold(rows[1..], applyFunctions, apply, next)
  }

  /** `GetById` on the rows it read: absent when there are none, otherwise the
      fold from the initial state `{ id: aggregateId }`. */
  function Rehydrate<P, R, S>(rows: seq<EventRow<P>>, aggregateId: string, applyFunctions: map<string, R>,
                              apply: (R, S, P, int) -> Result<S>, initial: string -> S): (r: Result<Option<S>>)
    ensures r == Ok(None) <==> rows == []
  {
    if rows == [] then Ok(None)
    else
      match Fold(rows, applyFunctions, apply, initial(aggregateId))
      case Err(e) => Err(e)
      case Ok(s) => Ok(Some(s))
  }

  /** Folding a concatenation folds the first part, then the second from where
      the first ended. */
  lemma {:induction false} FoldAppend<P, R, S>(a: seq<EventRow<P>>, b: seq<EventRow<P>>, applyFunctions: map<string, R>,
                                              apply: (R, S, P, int) -> Result<S>, state: S)
    ensures Fold(a + b, applyFunctions, apply, state)
         == match Fold(a, applyFunctions, apply, state)
            case Err(e) => Err(e)
            case Ok(s) => Fold(b, applyFunctions, apply, s)
  {
    if a != [] {
      assert (a + b)[0] == a[0] && (a + b)[1..] == a[1..] + b;
      match ApplyRow(applyFunctions, apply, state, a[0])
      case Err(e) =>
        assert Fold(a + b, applyFunctions, apply, state) == Err(e);
        assert Fold(a, applyFunctions, apply, state) == Err(e);
      case Ok(next) =>
        FoldAppend(a[1..], b, applyFunctions, apply, next);
        assert Fold(a + b, applyFunctions, apply, state) == Fold(a[1..] + b, applyFunctions, apply, next);
        assert Fold(a, applyFunctions, apply, state) == Fold(a[1..], applyFunctions, apply, next);
    } else {
      assert a + b == b;
    }
  }

  /** A successful fold applied a registered reducer to every row: no row is skipped. */
  lemma {:induction false} FoldOkAllRegistered<P, R, S>(rows: seq<EventRow<P>>, applyFunctions: map<string, R>,
                                                       apply: (R, S, P, int) -> Result<S>, state: S)
    requires Fold(rows, applyFunctions, apply, state).Ok?
    ensures forall i :: 0 <= i < |rows| ==> rows[i].eventType in applyFunctions
  {
    if rows != [] {
      var next := ApplyRow(applyFunctions, apply, state, rows[0]);
      FoldOkAllRegistered(rows[1..], applyFunctions, apply, next.value);
      forall i | 0 <= i < |rows| ensures rows[i].eventType in applyFunctions {
        if i > 0 { assert rows[i] == rows[1..][i - 1]; }
      }
    }
  }

  /** The first row with no registered reducer that the fold reaches ends
      `GetById` with the unknown-event-type error. */
  lemma FirstUnregisteredFails<P, R, S>(rows: seq<EventRow<P>>, k: nat, applyFunctions: map<string, R>,
                                        apply: (R, S, P, int) -> Result<S>, state: S)
    requires k < |rows| && rows[k].eventType !in applyFunctions
    requires Fold(rows[..k], applyFunctions, apply, state).Ok?
    ensures Fold(rows, applyFunctions, apply, state) == Err(UnknownEventType(rows[k].eventType))
  {
    assert rows == rows[..k] + rows[k..];
    FoldAppend(rows[..k], rows[k..], applyFunctions, apply, state);
  }

  /** A read that ends with a newly appended row rehydrates to the earlier
      state with that one row applied. */
  lemma RehydrateAppend<P, R, S>(rows: seq<EventRow<P>>, row: EventRow<P>, aggregateId: string,
                                 applyFunctions: map<string, R>, apply: (R, S, P, int) -> Result<S>,
                                 initial: string -> S)
    ensures Rehydrate(rows + [row], aggregateId, applyFunctions, apply, initial)
         == match Rehydrate(rows, aggregateId, applyFunctions, apply, initial)
            case Err(e) => Err(e)
            case Ok(None) => Rehydrate([row], aggregateId, applyFunctions, apply, initial)
            case Ok(Some(s)) =>
              match ApplyRow(applyFunctions, apply, s, row)
              case Err(e) => Err(e)
              case Ok(next) => Ok(Some(next))
  {
    FoldAppend(rows, [row], applyFunctions, apply, initial(aggregateId));
    if rows == [] {
      assert rows + [row] == [row];
    }
  }

  /** The read that follows appending one event, given the read before it: the
      event's reducer applied to the previous state, or to the initial state
      `{ id }` when there was none. */
  function Then<P, R, S>(previous: Result<Option<S>>, aggregateId: string, reducer: R, data: P, inserted: int,
                         apply: (R, S, P, int) -> Result<S>, initial: string -> S): Result<Option<S>>
  {
    match previous
    case Err(e) => Err(e)
    case Ok(found) =>
      var before := if found.Some? then found.value else initial(aggregateId);
      match apply(reducer, before, data, inserted)
      case Err(e) => Err(e)
      case Ok(next) => Ok(Some(next))
  }

  /** With a clock that does not run backwards, `GetById` after `InsertEvent`
      is the earlier `GetById` with the new event applied. */
  lemma ReadAfterInsert<P, R, S>(rows: seq<EventRow<P>>, nextId: nat, aggregateId: string, eventType: string,
                                 data: P, now: int, applyFunctions: map<string, R>,
                                 apply: (R, S, P, int) -> Result<S>, initial: string -> S)
    requires forall i :: 0 <= i < |rows| ==> rows[i].id < nextId
    requires NotLaterThan(rows, aggregateId, now)
    requires eventType in applyFunctions
    ensures Rehydrate(SelectOrdered(rows + [EventRow(nextId, aggregateId, eventType, data, now)], aggregateId),
                      aggregateId, applyFunctions, apply, initial)
         == Then(Rehydrate(SelectOrdered(rows, aggregateId), aggregateId, applyFunctions, apply, initial),
                 aggregateId, applyFunctions[eventType], data, now, apply, initial)
  {
    var row := EventRow(nextId, aggregateId, eventType, data, now);
    var read := SelectOrdered(rows, aggregateId);
    InsertedReadLast(rows, nextId, aggregateId, eventType, data, now);
    var prev := Rehydrate(read, aggregateId, applyFunctions, apply, initial);
    assert SelectOrdered(rows + [row], aggregateId) == read + [row];
    RehydrateAppend(read, row, aggregateId, applyFunctions, apply, initial);
    var reducer := applyFunctions[eventType];
    match prev
    case Err(e) =>
    case Ok(None) =>
      RehydrateSingle(row, aggregateId, applyFunctions, apply, initial);
      assert ApplyRow(applyFunctions, apply, initial(aggregateId), row) == apply(reducer, initial(aggregateId), data, now);
    case Ok(Some(st)) =>
      assert ApplyRow(applyFunctions, apply, st, row) == apply(reducer, st, data, now);
  }

  lemma RehydrateSingle<P, R, S>(row: EventRow<P>, aggregateId: string, applyFunctions: map<string, R>,
                                 apply: (R, S, P, int) -> Result<S>, initial: string -> S)
    ensures Rehydrate([row], aggregateId, applyFunctions, apply, initial)
         == match ApplyRow(applyFunctions, apply, initial(aggregateId), row)
            case Err(e) => Err(e)
            case Ok(next) => Ok(Some(next))
  {
    assert [row][1..] == [];
    match ApplyRow(applyFunctions, apply, initial(aggregateId), row)
    case Err(e) =>
      assert Fold([row], applyFunctions, apply, initial(aggregateId)) == Err(e);
    case Ok(next) =>
      assert Fold([row], applyFunctions, apply, initial(aggregateId)) == Fold([], applyFunctions, apply, next);
  }

  /** `GetById` right after the first event of an aggregate is inserted: that
      event applied to `{ id }`. */
  lemma ReadAfterFirstInsert<P, R, S>(rows: seq<EventRow<P>>, row: EventRow<P>, applyFunctions: map<string, R>,
                                      apply: (R, S, P, int) -> Result<S>, initial: string -> S)
    ensures Rehydrate(SelectOrdered(rows + [row], row.aggregateId), row.aggregateId, applyFunctions, apply, initial) != Ok(None)
    ensures (forall i :: 0 <= i < |rows| ==> rows[i].aggregateId != row.aggregateId) ==>
              (Rehydrate(SelectOrdered(rows + [row], row.aggregateId), row.aggregateId, applyFunctions, apply, initial)
               == match ApplyRow(applyFunctions, apply, initial(row.aggregateId), row)
                  case Err(e) => Err(e)
                  case Ok(next) => Ok(Some(next)))
  {
    InsertedFirst(rows, row);
    RehydrateSingle(row, row.aggregateId, applyFunctions, apply, initial);
  }

  /** `GetById`: read the aggregate's rows in order and fold them in a loop.
      A rejected SELECT (`fault`) throws before anything is applied. */
  method GetById<P, R, S>(store: EventTable<P>, aggregateId: string, applyFunctions: map<string, R>,
                          apply: (R, S, P, int) -> Result<S>, initial: string -> S, fault: Option<string>)
    returns (r: Result<Option<S>>)
    ensures fault.Some? ==> r == Err(Storage(fault.value))
    ensures fault.None? ==> r == Rehydrate(SelectOrdered(store.rows, aggregateId), aggregateId, applyFunctions, apply, initial)
  {
    if fault.Some? {
      return Err(Storage(fault.value));
    }
    var rows := SelectOrdered(store.rows, aggregateId);
    if |rows| == 0 {
      return Ok(None);
    }
    var result := initial(aggregateId);
    var i := 0;
    while i < |rows|
      invariant 0 <= i <= |rows|
      invariant Fold(rows, applyFunctions, apply, initial(aggregateId))
             == Fold(rows[i..], applyFunctions, apply, result)
    {
      var row := rows[i];
      assert rows[i..][1..] == rows[i + 1..];
      if row.eventType !in applyFunctions {
        return Err(UnknownEventType(row.eventType));
      }
      var next := apply(applyFunctions[row.eventType], result, row.data, row.createdUtc);
      if next.Err? {
        return Err(next.error);
      }
      result := next.value;
      i := i + 1;
    }
    assert rows[i..] == [];
    return Ok(Some(result));
  }
}
