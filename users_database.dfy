/** The users example's `Database`: `WithConnection` opens a connection, runs
    the function it is given and releases the connection with `quit` only if
    that function returned; `WithTransaction` issues BEGIN, COMMIT and
    ROLLBACK like the command/query example's, but on a failure it rolls back
    and returns `undefined` instead of rethrowing. */
module UsersDatabase {
  import opened Common
  import opened Transactions
  import CommandQuery

  /** What `WithTransaction` returns: `Some` of the body's result once
      committed; `None` (`undefined`) after a failure of the body or of the
      COMMIT that was rolled back. Only a throwing BEGIN or ROLLBACK escapes.
      Against the command/query scope, which makes the same calls: the same
      result on success and the same error when one escapes, but `undefined`
      where that one rethrows the failure it rolled back. */
  function SwallowOutcome<T>(body: Body<T>, faults: Faults): (r: Result<Option<T>>)
    ensures r.Ok? && r.value.Some? <==> Committed(body, faults)
    ensures Committed(body, faults) ==> r == Ok(Some(body.outcome.value))
    ensures r.Err? <==> faults.begin.Some? || (!Committed(body, faults) && faults.rollback.Some?)
    ensures faults.begin.Some? ==> r == Err(faults.begin.value)
    ensures r.Ok? && r.value.Some? ==> CommandQuery.RethrowOutcome(body, faults) == Ok(r.value.value)
    ensures r.Err? ==> CommandQuery.RethrowOutcome(body, faults) == Err(r.error)
    ensures r == Ok(None) ==> CommandQuery.RethrowOutcome(body, faults).Err?
    ensures r == Ok(None) && body.outcome.Err? ==> CommandQuery.RethrowOutcome(body, faults) == body.outcome
  {
    if faults.begin.Some? then Err(faults.begin.value)
    else if Committed(body, faults) then Ok(Some(body.outcome.value))
    else if faults.rollback.Some? then Err(faults.rollback.value)
    else Ok(None)
  }

  /** `WithTransaction`: begin, run the body, commit; on a throw from the body
      or the commit, roll back and return nothing. */
  method WithTransaction<T>(conn: Connection, body: Body<T>, faults: Faults) returns (r: Result<Option<T>>)
    modifies conn
    ensures conn.trace == old(conn.trace) + TxEntries(body, faults)
    ensures r == SwallowOutcome(body, faults)
  {
    var begun := conn.Call(Begin, Ack(faults.begin));
    if begun.Err? {
      return Err(begun.error);
    }
    var result := conn.Run(body);
    if result.Ok? {
      var committed := conn.Call(Commit, Ack(faults.commit));
      if committed.Ok? {
        return Ok(Some(result.value));
      }
    }
    var rolledBack := conn.Call(Rollback, Ack(faults.rollback));
    if rolledBack.Err? {
      return Err(rolledBack.error);
    }
    return Ok(None);
  }

  /** The calls `WithConnection` makes on the connection it opens: the body's,
      then `quit` if the body returned. A body that does not release the
      connection itself leaves it released exactly when it returned: a
      throwing body leaks the connection. */
  function ConnectionTrace<T>(body: Body<T>): (r: seq<Entry>)
    ensures (forall i :: 0 <= i < |body.entries| ==> body.entries[i].op != Quit) ==>
              (Released(r) <==> body.outcome.Ok?)
  {
    body.entries + (if body.outcome.Ok? then [Entry(Quit, true)] else [])
  }

  /** The connection was released. */
  predicate Released(trace: seq<Entry>) {
    Entry(Quit, true) in trace
  }

  /** `WithConnection`: a new connection, the body run on it, released only when
      the body returned; the body's result or error is passed on. */
  method WithConnection<T>(body: Body<T>) returns (r: Result<T>, conn: Connection)
    ensures fresh(conn)
    ensures conn.trace == ConnectionTrace(body)
    ensures r == body.outcome
  {
    conn := new Connection();
    r := conn.Run(body);
    if r.Ok? {
      var _ := conn.Call(Quit, Ok(()));
    }
  }

  /** `WithTransaction` as the function a `WithConnection` runs, as the example
      driver nests them. */
  function TransactionBody<T>(body: Body<T>, faults: Faults): Body<Option<T>> {
    Body(TxEntries(body, faults), SwallowOutcome(body, faults))
  }

  /** Because the failure of a transaction is swallowed, the enclosing
      `WithConnection` still releases its connection; only a BEGIN or ROLLBACK
      that throws leaks it. When it is released after a rollback, nothing the
      body wrote took effect. */
  lemma NestedScopesRelease<T>(body: Body<T>, faults: Faults, st: DbState)
    requires Plain(body.entries) && Idle(st)
    ensures Released(ConnectionTrace(TransactionBody(body, faults)))
            <==> faults.begin.None? && (Committed(body, faults) || faults.rollback.None?)
    ensures !Committed(body, faults) ==>
              Effect(st, ConnectionTrace(TransactionBody(body, faults))).committed == st.committed
  {
    var tx := TxEntries(body, faults);
    forall i | 0 <= i < |tx| ensures tx[i].op != Quit {
      if faults.begin.None? && 1 <= i < 1 + |body.entries| {
        assert tx[i] == body.entries[i - 1];
      }
    }
    TxAtomic(st, body, faults);
    var trace := ConnectionTrace(TransactionBody(body, faults));
    if SwallowOutcome(body, faults).Ok? {
      EffectAppend(st, tx, [Entry(Quit, true)]);
    } else {
      assert trace == tx;
    }
  }
}
