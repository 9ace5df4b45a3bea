/** A connection seen as the trace of the calls made on it, and what those
    calls do to the database. Both `WithTransaction` helpers issue the same
    calls: BEGIN, the body, COMMIT when the body returned, and ROLLBACK when
    the body or the COMMIT threw. They differ only in what they return. */
module Transactions {
  import opened Common

  /** A call on the connection: transaction control, a read or a write made by
      a repository (named by what it does), or releasing the connection. */
  datatype Op = Begin | Commit | Rollback | Read(what: string) | Write(what: string) | Quit

  /** A call and whether it completed (`false`: it threw). */
  datatype Entry = Entry(op: Op, ok: bool)

  /** The function passed to a scope, as what it does on the connection it is
      given and how it ends: with a value, or with an error thrown. */
  datatype Body<T> = Body(entries: seq<Entry>, outcome: Result<T>)

  /** Which of BEGIN, COMMIT and ROLLBACK throw, and with what. */
  datatype Faults = Faults(begin: Option<Error>, commit: Option<Error>, rollback: Option<Error>)

  function Ack(fault: Option<Error>): (r: Result<()>)
    ensures r.Ok? <==> fault.None?
  {
    if fault.Some? then Err(fault.value) else Ok(())
  }

  // ---------------------------------------------------------------------
  // The database behind the connection

  /** Whether a transaction is open, its uncommitted writes, and the writes
      that took effect. */
  datatype DbState = DbState(inTransaction: bool, pending: seq<string>, committed: seq<string>)

  /** No transaction is open. */
  predicate Idle(st: DbState) {
    !st.inTransaction && st.pending == []
  }

  /** One completed call (a call that threw changes nothing). A BEGIN inside a
      transaction commits it first, as MySQL does; a write outside a
      transaction commits at once; releasing the connection discards an open
      transaction. */
  function Step(st: DbState, e: Entry): DbState {
    if !e.ok then st
    else
      match e.op
      case Begin => DbState(true, [], st.committed + st.pending)
      case Commit => DbState(false, [], st.committed + st.pending)
      case Rollback => DbState(false, [], st.committed)
      case Read(_) => st
      case Write(w) =>
        if st.inTransaction then st.(pending := st.pending + [w]) else st.(committed := st.committed + [w])
      case Quit => DbState(false, [], st.committed)
  }

  /** The database after a trace of calls. */
  function Effect(st: DbState, trace: seq<Entry>): DbState
    decreases |trace|
  {
    if trace == [] then st else Effect(Step(st, trace[0]), trace[1..])
  }

  /** Only reads and writes: no transaction control and no release. */
  predicate Plain(entries: seq<Entry>) {
    forall i :: 0 <= i < |entries| ==> entries[i].op.Read? || entries[i].op.Write?
  }

  /** The writes among `entries` that completed, in order. */
  function Writes(entries: seq<Entry>): seq<string> {
    if entries == [] then []
    else (if entries[0].ok && entries[0].op.Write? then [entries[0].op.what] else []) + Writes(entries[1..])
  }

  /** How many completed calls of `op` the trace holds. */
  function Count(entries: seq<Entry>, op: Op): nat {
    if entries == [] then 0
    else (if entries[0].op == op && entries[0].ok then 1 else 0) + Count(entries[1..], op)
  }

  lemma {:induction false} EffectAppend(st: DbState, a: seq<Entry>, b: seq<Entry>)
    ensures Effect(st, a + b) == Effect(Effect(st, a), b)
    decreases |a|
  {
    if a == [] {
      assert a + b == b;
    } else {
      assert (a + b)[0] == a[0] && (a + b)[1..] == a[1..] + b;
      EffectAppend(Step(st, a[0]), a[1..], b);
    }
  }

  lemma {:induction false} CountAppend(a: seq<Entry>, b: seq<Entry>, op: Op)
    ensures Count(a + b, op) == Count(a, op) + Count(b, op)
  {
    if a == [] {
      assert a + b == b;
    } else {
      assert (a + b)[0] == a[0] && (a + b)[1..] == a[1..] + b;
      CountAppend(a[1..], b, op);
    }
  }

  /** Reads and writes inside an open transaction only add to its pending writes. */
  lemma {:induction false} PlainInTransaction(st: DbState, entries: seq<Entry>)
    requires st.inTransaction && Plain(entries)
    ensures Effect(st, entries) == st.(pending := st.pending + Writes(entries))
    decreases |entries|
  {
    if entries != [] {
      assert Plain(entries[1..]) by {
        forall i | 0 <= i < |entries[1..]| ensures entries[1..][i].op.Read? || entries[1..][i].op.Write? {
          assert entries[1..][i] == entries[i + 1];
        }
      }
      PlainInTransaction(Step(st, entries[0]), entries[1..]);
      assert entries[0].op.Read? || entries[0].op.Write?;
    }
  }

  lemma {:induction false} PlainCounts(entries: seq<Entry>, op: Op)
    requires Plain(entries) && !op.Read? && !op.Write?
    ensures Count(entries, op) == 0
  {
    if entries != [] {
      assert Plain(entries[1..]) by {
        forall i | 0 <= i < |entries[1..]| ensures entries[1..][i].op.Read? || entries[1..][i].op.Write? {
          assert entries[1..][i] == entries[i + 1];
        }
      }
      PlainCounts(entries[1..], op);
      assert entries[0].op.Read? || entries[0].op.Write?;
    }
  }

  /** A trace with no completed call of `op` does not hold one. */
  lemma {:induction false} CountZeroAbsent(entries: seq<Entry>, op: Op)
    requires Count(entries, op) == 0
    ensures Entry(op, true) !in entries
  {
    if entries != [] {
      CountZeroAbsent(entries[1..], op);
      assert entries == [entries[0]] + entries[1..];
    }
  }

  // ---------------------------------------------------------------------
  // A transaction scope

  /** The body ran and its work was committed. */
  predicate Committed<T>(body: Body<T>, faults: Faults) {
    faults.begin.None? && body.outcome.Ok? && faults.commit.None?
  }

  /** The calls `WithTransaction` makes: BEGIN; if it completed, the body, then
      COMMIT when the body returned, then ROLLBACK unless the COMMIT completed.
      BEGIN comes first and the body right after it; when BEGIN throws, nothing
      else is called. */
  function TxEntries<T>(body: Body<T>, faults: Faults): (r: seq<Entry>)
    ensures |r| >= 1 && r[0].op == Begin
    ensures faults.begin.Some? ==> r == [Entry(Begin, false)]
    ensures faults.begin.None? ==> |r| > |body.entries| && r[1..1 + |body.entries|] == body.entries
  {
    if faults.begin.Some? then [Entry(Begin, false)]
    else
      [Entry(Begin, true)] + body.entries
      + (if body.outcome.Ok? then [Entry(Commit, faults.commit.None?)] else [])
      + (if Committed(body, faults) then [] else [Entry(Rollback, faults.rollback.None?)])
  }

  /** A body that leaves transaction control to the scope sees exactly one
      completed COMMIT when its work is committed and none otherwise, and
      exactly one ROLLBACK attempt whenever it began but was not committed. */
  lemma TxControl<T>(body: Body<T>, faults: Faults)
    requires Plain(body.entries)
    ensures Count(TxEntries(body, faults), Commit) == (if Committed(body, faults) then 1 else 0)
    ensures Count(TxEntries(body, faults), Rollback)
         == (if faults.begin.None? && !Committed(body, faults) && faults.rollback.None? then 1 else 0)
    ensures Entry(Rollback, true) in TxEntries(body, faults) ==> !Committed(body, faults)
    ensures faults.begin.None? && !Committed(body, faults) ==>
              Entry(Rollback, faults.rollback.None?) in TxEntries(body, faults)
  {
    var commit := if body.outcome.Ok? then [Entry(Commit, faults.commit.None?)] else [];
    var rollback := if Committed(body, faults) then [] else [Entry(Rollback, faults.rollback.None?)];
    if faults.begin.None? {
      assert TxEntries(body, faults) == [Entry(Begin, true)] + body.entries + commit + rollback;
      PlainCounts(body.entries, Commit);
      PlainCounts(body.entries, Rollback);
      CountAppend([Entry(Begin, true)], body.entries, Commit);
      CountAppend([Entry(Begin, true)] + body.entries, commit, Commit);
      CountAppend([Entry(Begin, true)] + body.entries + commit, rollback, Commit);
      CountAppend([Entry(Begin, true)], body.entries, Rollback);
      CountAppend([Entry(Begin, true)] + body.entries, commit, Rollback);
      CountAppend([Entry(Begin, true)] + body.entries + commit, rollback, Rollback);
      assert Count([Entry(Begin, true)], Commit) == 0 && Count([Entry(Begin, true)], Rollback) == 0;
      if Committed(body, faults) {
        CountZeroAbsent(TxEntries(body, faults), Rollback);
      } else {
        var es := TxEntries(body, faults);
        assert es[|es| - 1] == Entry(Rollback, faults.rollback.None?);
      }
    }
  }

  /** All or nothing, from a connection with no open transaction: committed,
      the body's completed writes take effect together and the transaction is
      closed; otherwise none of them takes effect, and once the ROLLBACK
      completes the database is as before. */
  lemma TxAtomic<T>(st: DbState, body: Body<T>, faults: Faults)
    requires Idle(st) && Plain(body.entries)
    ensures Committed(body, faults) ==>
              Effect(st, TxEntries(body, faults)) == st.(committed := st.committed + Writes(body.entries))
    ensures !Committed(body, faults) ==> Effect(st, TxEntries(body, faults)).committed == st.committed
    ensures !Committed(body, faults) && faults.rollback.None? ==> Effect(st, TxEntries(body, faults)) == st
  {
    if faults.begin.None? {
      var begun := DbState(true, [], st.committed);
      var commit := if body.outcome.Ok? then [Entry(Commit, faults.commit.None?)] else [];
      var rollback := if Committed(body, faults) then [] else [Entry(Rollback, faults.rollback.None?)];
      assert TxEntries(body, faults) == [Entry(Begin, true)] + body.entries + commit + rollback;
      EffectAppend(st, [Entry(Begin, true)], body.entries);
      EffectAppend(st, [Entry(Begin, true)] + body.entries, commit);
      EffectAppend(st, [Entry(Begin, true)] + body.entries + commit, rollback);
      assert Effect(st, [Entry(Begin, true)]) == begun;
      PlainInTransaction(begun, body.entries);
      assert begun.(pending := begun.pending + Writes(body.entries))
          == DbState(true, Writes(body.entries), st.committed);
    }
  }

  /** A connection: the calls made on it so far. */
  class Connection {
    var trace: seq<Entry>

    constructor ()
      ensures trace == []
    {
      trace := [];
    }

    /** Makes one call, which answers `answer`. */
    method Call<T>(op: Op, answer: Result<T>) returns (r: Result<T>)
      modifies this
      ensures trace == old(trace) + [Entry(op, answer.Ok?)]
      ensures r == answer
    {
      trace := trace + [Entry(op, answer.Ok?)];
      r := answer;
    }

    /** Runs a scope's body on this connection. */
    method Run<T>(body: Body<T>) returns (r: Result<T>)
      modifies this
      ensures trace == old(trace) + body.entries
      ensures r == body.outcome
    {
      trace := trace + body.entries;
      r := body.outcome;
    }
  }
}
