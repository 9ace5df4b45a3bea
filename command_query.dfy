/** The command/query separation example: a `WithTransaction` that rethrows,
    two command handlers that validate with lookups before opening a
    transaction, and a query handler that only reads. The repositories the
    handlers call are collaborators whose answers are given (`Collaborators`);
    each call is one entry in the connection's trace. The example's
    `WithConnection` hands over a connection and never releases it, so the
    handlers run on a given connection. */
module CommandQuery {
  import opened Common
  import opened Transactions

  datatype CreateTeamCommand = CreateTeamCommand(name: string, ownerId: string)
  datatype UpdateTeamNameCommand = UpdateTeamNameCommand(id: string, name: string, updatedById: string)
  datatype FindTeamsQuery = FindTeamsQuery(ownerIds: seq<string>)

  datatype TeamLookup = TeamLookup(id: string, name: string, ownerId: string, ownerName: string)
  datatype UserLookup = UserLookup(id: string, name: string, email: string)
  datatype Team = Team(id: string, name: string, ownerId: string, version: int)
  datatype FindTeamsQueryResults = FindTeamsQueryResults(results: seq<TeamLookup>)

  /** The answers of the repositories the handlers use; `Err` is a call that throws. */
  datatype Collaborators = Collaborators(
    findByName: string -> Result<Option<TeamLookup>>,
    findByOwnerIds: seq<string> -> Result<seq<TeamLookup>>,
    findUserById: string -> Result<Option<UserLookup>>,
    create: (string, string) -> Result<string>,
    getByIdOrThrow: string -> Result<Team>,
    setName: (string, string, string) -> Result<()>,
    updateProjection: (Team, string) -> Result<()>)

  const FindByName: Op := Read("teams.findByName")
  const FindByOwnerIds: Op := Read("teams.findByOwnerIds")
  const FindUserById: Op := Read("users.findById")
  const CreateTeamOp: Op := Write("teams.create")
  const GetTeam: Op := Read("teams.getByIdOrThrow")
  const SetName: Op := Write("teams.setName")
  const UpdateProjection: Op := Write("projections.update")

  const TeamExists: string := "A team with that name already exists"
  const OwnerMissing: string := "Owner could not be found"
  const TeamMissing: string := "A team with that id does not exist"

  /** Only lookups: no transaction control and no write. */
  predicate ReadsOnly(entries: seq<Entry>) {
    forall i :: 0 <= i < |entries| ==> entries[i].op.Read?
  }

  // ---------------------------------------------------------------------
  // WithTransaction

  /** What `WithTransaction` returns or throws: the body's result once
      committed; otherwise the error of the body or of the COMMIT, rethrown,
      unless the ROLLBACK throws too, whose error then escapes. A BEGIN that
      throws ends it before the body runs. */
  function RethrowOutcome<T>(body: Body<T>, faults: Faults): (r: Result<T>)
    ensures r.Ok? <==> Committed(body, faults)
    ensures r.Ok? ==> r == body.outcome
    ensures faults.begin.Some? ==> r == Err(faults.begin.value)
    ensures faults.begin.None? && faults.rollback.None? && body.outcome.Err? ==> r == body.outcome
    ensures faults.begin.None? && faults.rollback.None? && body.outcome.Ok? && faults.commit.Some? ==>
              r == Err(faults.commit.value)
  {
    if faults.begin.Some? then Err(faults.begin.value)
    else if Committed(body, faults) then body.outcome
    else if faults.rollback.Some? then Err(faults.rollback.value)
    else if body.outcome.Err? then Err(body.outcome.error)
    else Err(faults.commit.value)
  }

  /** `WithTransaction`: begin, run the body, commit; on a throw from the body
      or the commit, roll back and rethrow. */
  method WithTransaction<T>(conn: Connection, body: Body<T>, faults: Faults) returns (r: Result<T>)
    modifies conn
    ensures conn.trace == old(conn.trace) + TxEntries(body, faults)
    ensures r == RethrowOutcome(body, faults)
  {
    var begun := conn.Call(Begin, Ack(faults.begin));
    if begun.Err? {
      return Err(begun.error);
    }
    var result := conn.Run(body);
    var failure: Error;
    if result.Ok? {
      var committed := conn.Call(Commit, Ack(faults.commit));
      if committed.Ok? {
        return result;
      }
      failure := committed.error;
    } else {
      failure := result.error;
    }
    var rolledBack := conn.Call(Rollback, Ack(faults.rollback));
    if rolledBack.Err? {
      return Err(rolledBack.error);
    }
    return Err(failure);
  }

  // ---------------------------------------------------------------------
  // CreateTeamCommandHandler

  /** The transaction body of `CreateTeamCommandHandler.handle`: create the
      team, load it back, update the projection with the owner's name, and
      return the id `create` gave. */
  function CreateTeamBody(command: CreateTeamCommand, owner: UserLookup, env: Collaborators): (r: Body<string>)
    ensures Plain(r.entries)
    ensures r.outcome.Ok? <==>
              && env.create(command.name, command.ownerId).Ok?
              && env.getByIdOrThrow(env.create(command.name, command.ownerId).value).Ok?
              && env.updateProjection(env.getByIdOrThrow(env.create(command.name, command.ownerId).value).value,
                                      owner.name).Ok?
    ensures r.outcome.Ok? ==> r.outcome.value == env.create(command.name, command.ownerId).value
    ensures r.outcome.Ok? ==> Writes(r.entries) == [CreateTeamOp.what, UpdateProjection.what]
  {
    match env.create(command.name, command.ownerId)
    case Err(e) => Body([Entry(CreateTeamOp, false)], Err(e))
    case Ok(id) =>
      match env.getByIdOrThrow(id)
      case Err(e) => Body([Entry(CreateTeamOp, true), Entry(GetTeam, false)], Err(e))
      case Ok(team) =>
        var update := env.updateProjection(team, owner.name);
        var entries := [Entry(CreateTeamOp, true), Entry(GetTeam, true), Entry(UpdateProjection, update.Ok?)];
        assert update.Ok? ==> Writes(entries) == [CreateTeamOp.what, UpdateProjection.what] by {
          assert entries[1..] == [entries[1], entries[2]] && entries[1..][1..] == [entries[2]];
          assert Writes(entries[1..][1..]) == (if update.Ok? then [UpdateProjection.what] else []) + Writes([]);
          assert Writes(entries[1..]) == Writes(entries[1..][1..]);
        }
        Body(entries, if update.Ok? then Ok(id) else Err(update.error))
  }

  /** All the calls `CreateTeamCommandHandler.handle` makes, and its outcome. */
  function CreateTeamCalls(command: CreateTeamCommand, env: Collaborators, faults: Faults): Body<string> {
    var existing := env.findByName(command.name);
    var byName := [Entry(FindByName, existing.Ok?)];
    if existing.Err? then Body(byName, Err(existing.error))
    else if existing.value.Some? then Body(byName, Err(Thrown(TeamExists)))
    else
      var owner := env.findUserById(command.ownerId);
      var lookups := byName + [Entry(FindUserById, owner.Ok?)];
      if owner.Err? then Body(lookups, Err(owner.error))
      else if owner.value.None? then Body(lookups, Err(Thrown(OwnerMissing)))
      else
        var tx := CreateTeamBody(command, owner.value.value, env);
        Body(lookups + TxEntries(tx, faults), RethrowOutcome(tx, faults))
  }

  /** `CreateTeamCommandHandler.handle`. */
  method CreateTeam(conn: Connection, command: CreateTeamCommand, env: Collaborators, faults: Faults)
    returns (r: Result<string>)
    modifies conn
    ensures conn.trace == old(conn.trace) + CreateTeamCalls(command, env, faults).entries
    ensures r == CreateTeamCalls(command, env, faults).outcome
  {
    var existing := conn.Call(FindByName, env.findByName(command.name));
    if existing.Err? {
      return Err(existing.error);
    }
    if existing.value.Some? {
      return Err(Thrown(TeamExists));
    }
    var owner := conn.Call(FindUserById, env.findUserById(command.ownerId));
    if owner.Err? {
      return Err(owner.error);
    }
    if owner.value.None? {
      return Err(Thrown(OwnerMissing));
    }
    r := WithTransaction(conn, CreateTeamBody(command, owner.value.value, env), faults);
  }

  /** A taken name or an unknown owner fails the command with its message
      before any transaction is begun: only lookups were made. */
  lemma CreateTeamValidatesFirst(command: CreateTeamCommand, env: Collaborators, faults: Faults)
    ensures env.findByName(command.name).Ok? && env.findByName(command.name).value.Some? ==>
              CreateTeamCalls(command, env, faults) == Body([Entry(FindByName, true)], Err(Thrown(TeamExists)))
    ensures env.findByName(command.name) == Ok(None) && env.findUserById(command.ownerId) == Ok(None) ==>
              CreateTeamCalls(command, env, faults).outcome == Err(Thrown(OwnerMissing))
              && ReadsOnly(CreateTeamCalls(command, env, faults).entries)
    ensures !ReadsOnly(CreateTeamCalls(command, env, faults).entries) ==>
              env.findByName(command.name) == Ok(None)
              && env.findUserById(command.ownerId).Ok? && env.findUserById(command.ownerId).value.Some?
  {
    var calls := CreateTeamCalls(command, env, faults);
    var existing := env.findByName(command.name);
    var owner := env.findUserById(command.ownerId);
    if existing == Ok(None) && owner.Ok? && owner.value.Some? {
    } else if existing == Ok(None) {
      var lookups := [Entry(FindByName, true), Entry(FindUserById, owner.Ok?)];
      assert calls.entries == lookups;
    } else {
      assert calls.entries == [Entry(FindByName, existing.Ok?)];
    }
  }

  lemma {:induction false} ReadsOnlyNoEffect(st: DbState, entries: seq<Entry>)
    requires ReadsOnly(entries)
    ensures Effect(st, entries) == st
    decreases |entries|
  {
    if entries != [] {
      assert ReadsOnly(entries[1..]) by {
        forall i | 0 <= i < |entries[1..]| ensures entries[1..][i].op.Read? {
          assert entries[1..][i] == entries[i + 1];
        }
      }
      ReadsOnlyNoEffect(Step(st, entries[0]), entries[1..]);
      assert entries[0].op.Read?;
    }
  }

  /** From a connection with no open transaction, `CreateTeam` either returns
      the id `create` gave with the team and its projection committed
      together, or commits nothing. */
  lemma CreateTeamAtomic(st: DbState, command: CreateTeamCommand, env: Collaborators, faults: Faults)
    requires Idle(st)
    ensures var calls := CreateTeamCalls(command, env, faults);
            calls.outcome.Ok? ==>
              && calls.outcome.value == env.create(command.name, command.ownerId).value
              && Effect(st, calls.entries) == st.(committed := st.committed + [CreateTeamOp.what, UpdateProjection.what])
    ensures CreateTeamCalls(command, env, faults).outcome.Err? ==>
              Effect(st, CreateTeamCalls(command, env, faults).entries).committed == st.committed
  {
    var calls := CreateTeamCalls(command, env, faults);
    var existing := env.findByName(command.name);
    var owner := env.findUserById(command.ownerId);
    if existing == Ok(None) && owner.Ok? && owner.value.Some? {
      var lookups := [Entry(FindByName, true), Entry(FindUserById, true)];
      var tx := CreateTeamBody(command, owner.value.value, env);
      assert calls.entries == lookups + TxEntries(tx, faults);
      EffectAppend(st, lookups, TxEntries(tx, faults));
      ReadsOnlyNoEffect(st, lookups);
      TxAtomic(st, tx, faults);
    } else {
      CreateTeamValidatesFirst(command, env, faults);
      ReadsOnlyNoEffect(st, calls.entries);
    }
  }

  // ---------------------------------------------------------------------
  // UpdateTeamNameCommandHandler

  /** The transaction body of `UpdateTeamNameCommandHandler.handle`: set the
      name, load the team back, update the projection. */
  function UpdateTeamNameBody(command: UpdateTeamNameCommand, existing: TeamLookup, owner: UserLookup,
                              env: Collaborators): (r: Body<()>)
    ensures Plain(r.entries)
    ensures r.outcome.Ok? ==> Writes(r.entries) == [SetName.what, UpdateProjection.what]
  {
    match env.setName(existing.id, command.name, command.updatedById)
    case Err(e) => Body([Entry(SetName, false)], Err(e))
    case Ok(_) =>
      match env.getByIdOrThrow(existing.id)
      case Err(e) => Body([Entry(SetName, true), Entry(GetTeam, false)], Err(e))
      case Ok(team) =>
        var update := env.updateProjection(team, owner.name);
        var entries := [Entry(SetName, true), Entry(GetTeam, true), Entry(UpdateProjection, update.Ok?)];
        assert update.Ok? ==> Writes(entries) == [SetName.what, UpdateProjection.what] by {
          assert entries[1..] == [entries[1], entries[2]] && entries[1..][1..] == [entries[2]];
          assert Writes(entries[1..][1..]) == (if update.Ok? then [UpdateProjection.what] else []) + Writes([]);
          assert Writes(entries[1..]) == Writes(entries[1..][1..]);
        }
        Body(entries, if update.Ok? then Ok(()) else Err(update.error))
  }

  /** All the calls `UpdateTeamNameCommandHandler.handle` makes, and its outcome.
      The team is looked up by the NEW name, `command.name`; `command.id` is not used. */
  function UpdateTeamNameCalls(command: UpdateTeamNameCommand, env: Collaborators, faults: Faults): Body<()> {
    var existing := env.findByName(command.name);
    var byName := [Entry(FindByName, existing.Ok?)];
    if existing.Err? then Body(byName, Err(existing.error))
    else if existing.value.None? then Body(byName, Err(Thrown(TeamMissing)))
    else
      var team := existing.value.value;
      var owner := env.findUserById(team.ownerId);
      var lookups := byName + [Entry(FindUserById, owner.Ok?)];
      if owner.Err? then Body(lookups, Err(owner.error))
      else if owner.value.None? then Body(lookups, Err(Thrown(OwnerMissing)))
      else
        var tx := UpdateTeamNameBody(command, team, owner.value.value, env);
        Body(lookups + TxEntries(tx, faults), RethrowOutcome(tx, faults))
  }

  /** `UpdateTeamNameCommandHandler.handle`. */
  method UpdateTeamName(conn: Connection, command: UpdateTeamNameCommand, env: Collaborators, faults: Faults)
    returns (r: Result<()>)
    modifies conn
    ensures conn.trace == old(conn.trace) + UpdateTeamNameCalls(command, env, faults).entries
    ensures r == UpdateTeamNameCalls(command, env, faults).outcome
  {
    var existing := conn.Call(FindByName, env.findByName(command.name));
    if existing.Err? {
      return Err(existing.error);
    }
    if existing.value.None? {
      return Err(Thrown(TeamMissing));
    }
    var team := existing.value.value;
    var owner := conn.Call(FindUserById, env.findUserById(team.ownerId));
    if owner.Err? {
      return Err(owner.error);
    }
    if owner.value.None? {
      return Err(Thrown(OwnerMissing));
    }
    r := WithTransaction(conn, UpdateTeamNameBody(command, team, owner.value.value, env), faults);
  }

  /** When no team carries the requested name, the command fails with the
      missing-team message after one lookup, whatever `command.id` is; a
      missing owner also fails before any transaction is begun. */
  lemma UpdateTeamNameValidatesFirst(command: UpdateTeamNameCommand, env: Collaborators, faults: Faults)
    ensures env.findByName(command.name) == Ok(None) ==>
              UpdateTeamNameCalls(command, env, faults) == Body([Entry(FindByName, true)], Err(Thrown(TeamMissing)))
    ensures !ReadsOnly(UpdateTeamNameCalls(command, env, faults).entries) ==>
              && env.findByName(command.name).Ok? && env.findByName(command.name).value.Some?
              && env.findUserById(env.findByName(command.name).value.value.ownerId).Ok?
              && env.findUserById(env.findByName(command.name).value.value.ownerId).value.Some?
  {
    var calls := UpdateTeamNameCalls(command, env, faults);
    var existing := env.findByName(command.name);
    if existing.Ok? && existing.value.Some? {
      var owner := env.findUserById(existing.value.value.ownerId);
      if !(owner.Ok? && owner.value.Some?) {
        assert calls.entries == [Entry(FindByName, true), Entry(FindUserById, owner.Ok?)];
      }
    } else {
      assert calls.entries == [Entry(FindByName, existing.Ok?)];
    }
  }

  /** From a connection with no open transaction, the new name and the
      projection are committed together, or nothing is. */
  lemma UpdateTeamNameAtomic(st: DbState, command: UpdateTeamNameCommand, env: Collaborators, faults: Faults)
    requires Idle(st)
    ensures UpdateTeamNameCalls(command, env, faults).outcome.Ok? ==>
              Effect(st, UpdateTeamNameCalls(command, env, faults).entries)
              == st.(committed := st.committed + [SetName.what, UpdateProjection.what])
    ensures UpdateTeamNameCalls(command, env, faults).outcome.Err? ==>
              Effect(st, UpdateTeamNameCalls(command, env, faults).entries).committed == st.committed
  {
    var calls := UpdateTeamNameCalls(command, env, faults);
    var existing := env.findByName(command.name);
    if existing.Ok? && existing.value.Some? && env.findUserById(existing.value.value.ownerId).Ok?
       && env.findUserById(existing.value.value.ownerId).value.Some? {
      var team := existing.value.value;
      var owner := env.findUserById(team.ownerId);
      var lookups := [Entry(FindByName, true), Entry(FindUserById, true)];
      var tx := UpdateTeamNameBody(command, team, owner.value.value, env);
      assert calls.entries == lookups + TxEntries(tx, faults);
      EffectAppend(st, lookups, TxEntries(tx, faults));
      ReadsOnlyNoEffect(st, lookups);
      TxAtomic(st, tx, faults);
    } else {
      UpdateTeamNameValidatesFirst(command, env, faults);
      ReadsOnlyNoEffect(st, calls.entries);
    }
  }

  // ---------------------------------------------------------------------
  // FindTeamsQueryHandler

  /** `FindTeamsQueryHandler.handle`: one lookup by owner ids, its rows
      returned as `results`. */
  method FindTeams(conn: Connection, query: FindTeamsQuery, env: Collaborators) returns (r: Result<FindTeamsQueryResults>)
    modifies conn
    ensures conn.trace == old(conn.trace) + [Entry(FindByOwnerIds, env.findByOwnerIds(query.ownerIds).Ok?)]
    ensures ReadsOnly(conn.trace[|old(conn.trace)|..])
    ensures r.Ok? <==> env.findByOwnerIds(query.ownerIds).Ok?
    ensures r.Ok? ==> r.value.results == env.findByOwnerIds(query.ownerIds).value
    ensures r.Err? ==> r.error == env.findByOwnerIds(query.ownerIds).error
  {
    var searchResults := conn.Call(FindByOwnerIds, env.findByOwnerIds(query.ownerIds));
    assert conn.trace[|old(conn.trace)|..] == [Entry(FindByOwnerIds, env.findByOwnerIds(query.ownerIds).Ok?)];
    if searchResults.Err? {
      return Err(searchResults.error);
    }
    return Ok(FindTeamsQueryResults(searchResults.value));
  }
}
