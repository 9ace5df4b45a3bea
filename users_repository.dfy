/** The users example's `UsersRepository`: `Create` appends a
    `user_created_v1` event to the `users_events` table, and `GetById`
    rehydrates through `EventSourcingBase`, whose only reducer here is
    `ApplyUserCreatedV1`. */
module UsersRepository {
  import opened Common
  import opened EventStore
  import opened EventSourcingBase

  /** The `data` argument of `Create`, stored as the event's payload. */
  datatype UserCreatedData = UserCreatedData(name: string, email: string)

  /** A `Partial<User>` under construction: `id` is set before the first row is
      applied, every other field is `undefined` until a reducer sets it. */
  datatype User = User(id: string, email: Option<string>, name: Option<string>,
                       created: Option<int>, createdBy: Option<string>,
                       updated: Option<int>, updatedBy: Option<string>)

  /** The members of a `UsersRepository` that a reducer name can find. */
  datatype UsersMember = UserCreatedV1Member

  const UserCreatedType: string := "user_created_v1"

  const Members: map<string, UsersMember> := map["ApplyUserCreatedV1" := UserCreatedV1Member]

  /** `instance = {}; instance.id = rows[0].aggregate_id`. */
  function InitialUser(id: string): User {
    User(id, None, None, None, None, None, None)
  }

  /** `ApplyUserCreatedV1`: the instance with email and name from the event,
      created and createdBy from the row, updated at `now` by the row's author. */
  function ApplyUserCreatedV1(event: UserCreatedData, instance: User, row: EventSourcingRow<UserCreatedData>,
                              now: int): (r: User)
    ensures r.id == instance.id
    ensures r.email == Some(event.email) && r.name == Some(event.name)
    ensures r.created == Some(row.insertedUtc) && r.createdBy == Some(row.insertedBy)
    ensures r.updated == Some(now) && r.updatedBy == r.createdBy
  {
    instance.(email := Some(event.email), name := Some(event.name),
              created := Some(row.insertedUtc), createdBy := Some(row.insertedBy),
              updated := Some(now), updatedBy := Some(row.insertedBy))
  }

  /** Runs the member a reducer name found; `now` is the clock `new Date()` reads. */
  function ApplyMember(member: UsersMember, event: UserCreatedData, instance: User,
                       row: EventSourcingRow<UserCreatedData>, now: int): Result<User>
  {
    match member
    case UserCreatedV1Member => Ok(ApplyUserCreatedV1(event, instance, row, now))
  }

  /** `GetById` of a `UsersRepository` on the rows `GetRows` returned. */
  function Load(rows: seq<EventSourcingRow<UserCreatedData>>, now: int): Result<Option<User>> {
    Rehydrate(rows, Members, (m, d, u, row) => ApplyMember(m, d, u, row, now), InitialUser)
  }

  lemma UserCreatedDispatch()
    ensures BuildApplyFunctionName(UserCreatedType) in Members
    ensures Members[BuildApplyFunctionName(UserCreatedType)] == UserCreatedV1Member
  {
    UserCreatedName();
  }

  /** Rows that are all `user_created_v1` events rehydrate to the first row's
      aggregate id with every other field from the last row: each creation
      overwrites the one before. */
  lemma {:induction false} AllCreatedLastWins(rows: seq<EventSourcingRow<UserCreatedData>>, instance: User, now: int)
    requires |rows| > 0
    requires forall i :: 0 <= i < |rows| ==> rows[i].eventType == UserCreatedType
    ensures var last := rows[|rows| - 1];
            ApplyRows(rows, Members, (m, d, u, row) => ApplyMember(m, d, u, row, now), instance)
            == Ok(ApplyUserCreatedV1(last.data, instance, last, now))
  {
    var apply := (m, d, u, row) => ApplyMember(m, d, u, row, now);
    UserCreatedDispatch();
    var next := ApplyUserCreatedV1(rows[0].data, instance, rows[0], now);
    assert ApplyRow(Members, apply, instance, rows[0]) == Ok(next);
    if |rows| == 1 {
      assert ApplyRows(rows[1..], Members, apply, next) == Ok(next);
    } else {
      AllCreatedLastWins(rows[1..], next, now);
      assert rows[1..][|rows| - 2] == rows[|rows| - 1];
    }
  }

  /** `GetById` on rows that are all creations: the user created last, under the
      id of the first row; on no rows, absent. */
  lemma LoadCreated(rows: seq<EventSourcingRow<UserCreatedData>>, now: int)
    requires forall i :: 0 <= i < |rows| ==> rows[i].eventType == UserCreatedType
    ensures rows == [] ==> Load(rows, now) == Ok(None)
    ensures rows != [] ==>
              var last := rows[|rows| - 1];
              Load(rows, now) == Ok(Some(User(rows[0].aggregateId, Some(last.data.email), Some(last.data.name),
                                              Some(last.insertedUtc), Some(last.insertedBy),
                                              Some(now), Some(last.insertedBy))))
  {
    if rows != [] {
      AllCreatedLastWins(rows, InitialUser(rows[0].aggregateId), now);
    }
  }

  /** A row whose event type names no member ends `GetById` with the missing
      function's name. */
  lemma UnknownEventFails(rows: seq<EventSourcingRow<UserCreatedData>>, now: int)
    requires rows != [] && BuildApplyFunctionName(rows[0].eventType) != "ApplyUserCreatedV1"
    ensures Load(rows, now) == Err(MissingApplyFunction(BuildApplyFunctionName(rows[0].eventType)))
  {
    var apply := (m, d, u, row) => ApplyMember(m, d, u, row, now);
    assert ApplyRow(Members, apply, InitialUser(rows[0].aggregateId), rows[0])
        == Err(MissingApplyFunction(BuildApplyFunctionName(rows[0].eventType)));
  }

  class UsersRepository {
    /** The `users_events` table. */
    const store: EventTable<UserCreatedData>

    constructor (store: EventTable<UserCreatedData>)
      ensures this.store == store
    {
      this.store := store;
    }

    /** `Create`: stores one `user_created_v1` event under a fresh id (the
        `uuid` the source draws) and returns that id. A rejected INSERT
        (`fault`) throws with nothing stored. */
    method Create(name: string, email: string, freshId: string, now: int, fault: Option<string>)
      returns (r: Result<string>)
      requires store.Valid()
      modifies store
      ensures store.Valid()
      ensures fault.Some? ==> r == Err(Storage(fault.value)) && store.rows == old(store.rows)
      ensures fault.None? ==> r == Ok(freshId)
      ensures fault.None? ==>
                store.rows == old(store.rows)
                              + [EventRow(old(store.nextId), freshId, UserCreatedType, UserCreatedData(name, email), now)]
    {
      var inserted := store.InsertEvent(freshId, UserCreatedType, UserCreatedData(name, email), now, fault);
      if inserted.Err? {
        return Err(inserted.error);
      }
      r := Ok(freshId);
    }

    /** `GetById` on the rows `GetRows` returned for the id, applied at `now`:
        absent on no rows; on rows that are all creations, the user created
        last, under the first row's aggregate id. */
    method GetById(rows: seq<EventSourcingRow<UserCreatedData>>, now: int) returns (r: Result<Option<User>>)
      ensures r == Load(rows, now)
      ensures r == Ok(None) <==> rows == []
      ensures rows != [] && (forall i :: 0 <= i < |rows| ==> rows[i].eventType == UserCreatedType) ==>
                var last := rows[|rows| - 1];
                r == Ok(Some(User(rows[0].aggregateId, Some(last.data.email), Some(last.data.name),
                                  Some(last.insertedUtc), Some(last.insertedBy), Some(now), Some(last.insertedBy))))
    {
      r := EventSourcingBase.GetById(rows, Members, (m, d, u, row) => ApplyMember(m, d, u, row, now), InitialUser);
      if forall i :: 0 <= i < |rows| ==> rows[i].eventType == UserCreatedType {
        LoadCreated(rows, now);
      }
    }
  }
}
