/**
 * An in-memory stand-in for the hosted database: one sequence per table, and
 * one method per insert or update the pages issue. A write can be refused by
 * a transient failure (the `fault` argument, standing for the network or the
 * service), by a uniqueness violation, or by a missing referenced row.
 */
module Store {
  import opened Wrappers
  import opened Types
  import opened Seqs

  /** Why the store refused a write. */
  datatype StoreError = UniqueViolation | ForeignKeyViolation | Transient

  /**
   * The pages test a refused insert with `error.message.includes('duplicate')`;
   * the store's message carries that word exactly for a uniqueness violation.
   */
  predicate IsDuplicate(e: StoreError) { e.UniqueViolation? }

  /** The outcome of an insert: the new row's id, or the refusal. */
  datatype InsertResult = Inserted(id: Id) | Refused(error: StoreError)

  /** `.single()`: the one matching row, or nothing when no row or several rows match. */
  function Single<T>(rows: seq<T>): (r: Option<T>)
    ensures r.Some? <==> |rows| == 1
    ensures r.Some? ==> r.value == rows[0]
  {
    if |rows| == 1 then Some(rows[0]) else None
  }

  predicate HasUser(users: seq<User>, id: Id) {
    exists u :: u in users && u.id == id
  }

  predicate HasRoom(rooms: seq<ChatRoom>, id: Id) {
    exists r :: r in rooms && r.id == id
  }

  /** A participant row for the pair (`roomId`, `userId`) exists. */
  predicate HasPair(parts: seq<RoomParticipant>, roomId: Id, userId: Id) {
    exists p :: p in parts && p.roomId == roomId && p.userId == userId
  }

  function OfRoom(roomId: Id): RoomParticipant -> bool {
    (p: RoomParticipant) => p.roomId == roomId
  }

  /** `.eq('email', email)` on `users`. */
  function EmailIs(email: string): User -> bool {
    (u: User) => u.email == email
  }

  /** `.eq('nickname', nickname)` on `users`. */
  function NicknameIs(nickname: string): User -> bool {
    (u: User) => u.nickname == nickname
  }

  /** `.eq('id', id)` on `users`. */
  function UserIdIs(id: Id): User -> bool {
    (u: User) => u.id == id
  }

  /** `.from('users').select('*').eq('id', id).single()`: the profile row, when exactly one row has the id. */
  function ProfileOf(users: seq<User>, id: Id): (r: Option<User>)
    ensures r.Some? ==> r.value in users && r.value.id == id
    ensures r.None? && HasUser(users, id) ==> |Filter(users, UserIdIs(id))| > 1
    ensures r.Some? ==> HasUser(users, id)
    ensures r.Some? <==> |Filter(users, UserIdIs(id))| == 1
  {
    var rows := Filter(users, UserIdIs(id));
    if HasUser(users, id) then
      var u :| u in users && u.id == id;
      FilterMember(users, UserIdIs(id), u);
      Single(rows)
    else
      Single(rows)
  }

  /** The participant rows of one room, in table order. */
  function RoomRows(parts: seq<RoomParticipant>, roomId: Id): seq<RoomParticipant> {
    Filter(parts, OfRoom(roomId))
  }

  /**
   * The table constraints: the primary keys (no two users, rooms or
   * participant rows share an id), at most one participant row per
   * (room, user) pair (the unique key of `room_participants`), every
   * participant row refers to an existing room and user, and the ids the
   * store hands out are fresh.
   */
  ghost predicate ValidTables(users: seq<User>, rooms: seq<ChatRoom>, parts: seq<RoomParticipant>, nextId: Id) {
    && (forall i, j :: 0 <= i < j < |users| ==> users[i].id != users[j].id)
    && (forall i, j :: 0 <= i < j < |rooms| ==> rooms[i].id != rooms[j].id)
    && (forall i, j :: 0 <= i < j < |parts| ==> parts[i].id != parts[j].id)
    && (forall i, j :: 0 <= i < j < |parts| ==>
          !(parts[i].roomId == parts[j].roomId && parts[i].userId == parts[j].userId))
    && (forall k :: 0 <= k < |parts| ==> HasRoom(rooms, parts[k].roomId) && HasUser(users, parts[k].userId))
    && (forall k :: 0 <= k < |rooms| ==> rooms[k].id < nextId)
    && (forall k :: 0 <= k < |parts| ==> parts[k].id < nextId)
  }

  // The three row updates below are kept apart on purpose: each is the
  // `update(...).eq('id', id)` of one table and one column, and each store
  // method and handler is specified by the one for its own table.

  /** `users` with the nickname of the rows whose id is `id` replaced and stamped. */
  function WithNickname(users: seq<User>, id: Id, nickname: string, at: Instant): (r: seq<User>)
    ensures |r| == |users|
    ensures forall k :: 0 <= k < |users| ==>
      r[k] == if users[k].id == id then users[k].(nickname := nickname, nicknameUpdatedAt := Some(at)) else users[k]
  {
    seq(|users|, k requires 0 <= k < |users| =>
      if users[k].id == id then users[k].(nickname := nickname, nicknameUpdatedAt := Some(at)) else users[k])
  }

  /** `users` with the status of the rows whose id is `id` replaced. */
  function WithUserStatus(users: seq<User>, id: Id, status: UserStatus): (r: seq<User>)
    ensures |r| == |users|
    ensures forall k :: 0 <= k < |users| ==>
      r[k] == if users[k].id == id then users[k].(status := status) else users[k]
  {
    seq(|users|, k requires 0 <= k < |users| =>
      if users[k].id == id then users[k].(status := status) else users[k])
  }

  /** `reports` with the status of the rows whose id is `id` replaced. */
  function WithReportStatus(reports: seq<Report>, id: Id, status: ReportStatus): (r: seq<Report>)
    ensures |r| == |reports|
    ensures forall k :: 0 <= k < |reports| ==>
      r[k] == if reports[k].id == id then reports[k].(status := status) else reports[k]
  {
    seq(|reports|, k requires 0 <= k < |reports| =>
      if reports[k].id == id then reports[k].(status := status) else reports[k])
  }

  /**
   * A user status change writes only the status, and only on the row with the
   * id: every other column of that row and every other row stay as they were.
   */
  lemma StatusChangeTouchesOnlyStatus(users: seq<User>, id: Id, status: UserStatus)
    ensures var r := WithUserStatus(users, id, status);
      && |r| == |users|
      && (forall k :: 0 <= k < |users| ==>
            && r[k].id == users[k].id && r[k].email == users[k].email && r[k].name == users[k].name
            && r[k].phone == users[k].phone && r[k].nickname == users[k].nickname
            && r[k].nicknameUpdatedAt == users[k].nicknameUpdatedAt && r[k].department == users[k].department
            && r[k].isAdmin == users[k].isAdmin && r[k].createdAt == users[k].createdAt
            && r[k].updatedAt == users[k].updatedAt)
      && (forall k :: 0 <= k < |users| && users[k].id == id ==> r[k].status == status)
      && (forall k :: 0 <= k < |users| && users[k].id != id ==> r[k] == users[k])
  {
  }

  /**
   * A report status change writes only the status, and only on the report with
   * the id: its room, reporter, reported user, reason and date stay, and so
   * does every other report.
   */
  lemma ReportStatusChangeTouchesOnlyStatus(reports: seq<Report>, id: Id, status: ReportStatus)
    ensures var r := WithReportStatus(reports, id, status);
      && |r| == |reports|
      && (forall k :: 0 <= k < |reports| ==>
            && r[k].id == reports[k].id && r[k].roomId == reports[k].roomId
            && r[k].reporterId == reports[k].reporterId && r[k].reportedId == reports[k].reportedId
            && r[k].reason == reports[k].reason && r[k].createdAt == reports[k].createdAt)
      && (forall k :: 0 <= k < |reports| && reports[k].id == id ==> r[k].status == status)
      && (forall k :: 0 <= k < |reports| && reports[k].id != id ==> r[k] == reports[k])
  {
  }

  /** Updating one user's row keeps the set of user ids, so references to users stay valid. */
  lemma {:induction false} UpdatedUsersKeepIds(users: seq<User>, updated: seq<User>, id: Id)
    requires |updated| == |users|
    requires forall k :: 0 <= k < |users| ==> updated[k].id == users[k].id
    ensures HasUser(updated, id) <==> HasUser(users, id)
  {
    if HasUser(users, id) {
      var u :| u in users && u.id == id;
      var k :| 0 <= k < |users| && users[k] == u;
      assert updated[k] in updated;
    }
    if HasUser(updated, id) {
      var u :| u in updated && u.id == id;
      var k :| 0 <= k < |updated| && updated[k] == u;
      assert users[k] in users;
    }
  }

  class Store {
    var users: seq<User>
    var rooms: seq<ChatRoom>
    var participants: seq<RoomParticipant>
    var messages: seq<Message>
    var reports: seq<Report>
    var favorites: seq<Favorite>
    /** The next id the store hands out to an inserted room or participant row. */
    var nextId: Id
    /** The server's clock, which stamps `created_at` and `joined_at`. */
    var clock: Instant

    ghost predicate Valid()
      reads this
    {
      ValidTables(users, rooms, participants, nextId)
    }

    constructor (users: seq<User>, rooms: seq<ChatRoom>, participants: seq<RoomParticipant>,
                 messages: seq<Message>, reports: seq<Report>, favorites: seq<Favorite>,
                 nextId: Id, clock: Instant)
      requires ValidTables(users, rooms, participants, nextId)
      ensures Valid()
      ensures this.users == users && this.rooms == rooms && this.participants == participants
      ensures this.messages == messages && this.reports == reports && this.favorites == favorites
      ensures this.nextId == nextId && this.clock == clock
    {
      this.users, this.rooms, this.participants := users, rooms, participants;
      this.messages, this.reports, this.favorites := messages, reports, favorites;
      this.nextId, this.clock := nextId, clock;
    }

    /** Time passes on the server. */
    method AdvanceClock(t: Instant)
      requires t >= clock
      modifies this`clock
      ensures clock == t
    {
      clock := t;
    }

    /**
     * `insert` into `chat_rooms`. The status column is not written by the
     * caller and takes its default, 'active'; `created_by` must name a user.
     */
    method InsertRoom(title: string, from: Location, to: Location, date: Day, time: string,
                      maxParticipants: int, createdBy: Id, fault: bool) returns (result: InsertResult)
      requires Valid()
      modifies this`rooms, this`nextId
      ensures Valid()
      ensures fault ==> result == Refused(Transient)
      ensures !fault && !HasUser(users, createdBy) ==> result == Refused(ForeignKeyViolation)
      ensures !fault && HasUser(users, createdBy) ==> result == Inserted(old(nextId))
      ensures result.Inserted? ==>
        && rooms == old(rooms) + [ChatRoom(result.id, title, from, to, date, time, maxParticipants,
                                            createdBy, RoomActive, clock, None)]
        && nextId == old(nextId) + 1
      ensures result.Refused? ==> rooms == old(rooms) && nextId == old(nextId)
    {
      if fault {
        return Refused(Transient);
      }
      if !HasUser(users, createdBy) {
        return Refused(ForeignKeyViolation);
      }
      var room := ChatRoom(nextId, title, from, to, date, time, maxParticipants, createdBy, RoomActive, clock, None);
      result := Inserted(nextId);
      assert room in rooms + [room];
      ghost var before := rooms;
      rooms := rooms + [room];
      nextId := nextId + 1;
      forall i, j | 0 <= i < j < |rooms| ensures rooms[i].id != rooms[j].id {
        if j == |before| {
          assert before[i].id < old(nextId);
        }
      }
    }

    /**
     * `insert` into `room_participants`, with the unique key on
     * (room_id, user_id) and the references to the room and the user.
     */
    method InsertParticipant(roomId: Id, userId: Id, confirmed: bool, fault: bool) returns (result: InsertResult)
      requires Valid()
      modifies this`participants, this`nextId
      ensures Valid()
      ensures fault ==> result == Refused(Transient)
      ensures !fault && HasPair(old(participants), roomId, userId) ==> result == Refused(UniqueViolation)
      ensures (!fault && !HasPair(old(participants), roomId, userId)
               && !(HasRoom(rooms, roomId) && HasUser(users, userId))) ==> result == Refused(ForeignKeyViolation)
      ensures (!fault && !HasPair(old(participants), roomId, userId)
               && HasRoom(rooms, roomId) && HasUser(users, userId)) ==> result == Inserted(old(nextId))
      ensures result.Inserted? ==>
        && participants == old(participants) + [RoomParticipant(result.id, roomId, userId, confirmed, clock)]
        && nextId == old(nextId) + 1
      ensures result.Refused? ==> participants == old(participants) && nextId == old(nextId)
    {
      if fault {
        return Refused(Transient);
      }
      if HasPair(participants, roomId, userId) {
        return Refused(UniqueViolation);
      }
      if !(HasRoom(rooms, roomId) && HasUser(users, userId)) {
        return Refused(ForeignKeyViolation);
      }
      var row := RoomParticipant(nextId, roomId, userId, confirmed, clock);
      result := Inserted(nextId);
      ghost var before := participants;
      participants := participants + [row];
      nextId := nextId + 1;
      forall i, j | 0 <= i < j < |participants|
        ensures !(participants[i].roomId == participants[j].roomId && participants[i].userId == participants[j].userId)
      {
        if j == |before| {
          assert before[i] in before;
        }
      }
      forall i, j | 0 <= i < j < |participants| ensures participants[i].id != participants[j].id {
        if j == |before| {
          assert before[i].id < old(nextId);
        }
      }
    }

    /**
     * `insert` into `users` of a new profile row: status 'active', not an
     * admin, nickname never changed. The id is the primary key.
     */
    method InsertUser(id: Id, email: string, name: string, phone: string, nickname: string,
                      department: string, fault: bool) returns (error: Option<StoreError>)
      requires Valid()
      modifies this`users
      ensures Valid()
      ensures fault ==> error == Some(Transient)
      ensures !fault ==> (error.Some? <==> HasUser(old(users), id))
      ensures error.Some? ==> users == old(users)
      ensures error.None? ==>
        users == old(users) + [User(id, email, name, phone, nickname, None, department, Active, false, clock, clock)]
    {
      if fault {
        return Some(Transient);
      }
      if HasUser(users, id) {
        return Some(UniqueViolation);
      }
      var row := User(id, email, name, phone, nickname, None, department, Active, false, clock, clock);
      ghost var before := users;
      users := users + [row];
      forall k | 0 <= k < |participants| ensures HasUser(users, participants[k].userId) {
        var u :| u in before && u.id == participants[k].userId;
        assert u in users;
      }
      forall i, j | 0 <= i < j < |users| ensures users[i].id != users[j].id {
        if j == |before| {
          assert before[i] in before;
        }
      }
      error := None;
    }

    /** `update users set nickname, nickname_updated_at where id = ...`. */
    method UpdateNickname(id: Id, nickname: string, at: Instant, fault: bool) returns (error: Option<StoreError>)
      requires Valid()
      modifies this`users
      ensures Valid()
      ensures error.Some? <==> fault
      ensures users == if fault then old(users) else WithNickname(old(users), id, nickname, at)
    {
      if fault {
        return Some(Transient);
      }
      var updated := WithNickname(users, id, nickname, at);
      forall k | 0 <= k < |participants| ensures HasUser(updated, participants[k].userId) {
        UpdatedUsersKeepIds(users, updated, participants[k].userId);
      }
      users := updated;
      error := None;
    }

    /** `update users set status where id = ...`. */
    method UpdateUserStatus(id: Id, status: UserStatus, fault: bool) returns (error: Option<StoreError>)
      requires Valid()
      modifies this`users
      ensures Valid()
      ensures error.Some? <==> fault
      ensures users == if fault then old(users) else WithUserStatus(old(users), id, status)
    {
      if fault {
        return Some(Transient);
      }
      var updated := WithUserStatus(users, id, status);
      forall k | 0 <= k < |participants| ensures HasUser(updated, participants[k].userId) {
        UpdatedUsersKeepIds(users, updated, participants[k].userId);
      }
      users := updated;
      error := None;
    }

    /** `update reports set status where id = ...`. */
    method UpdateReportStatus(id: Id, status: ReportStatus, fault: bool) returns (error: Option<StoreError>)
      requires Valid()
      modifies this`reports
      ensures Valid()
      ensures error.Some? <==> fault
      ensures reports == if fault then old(reports) else WithReportStatus(old(reports), id, status)
    {
      if fault {
        return Some(Transient);
      }
      reports := WithReportStatus(reports, id, status);
      error := None;
    }
  }
}
