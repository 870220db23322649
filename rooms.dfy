/**
 * The room list page of one route: the list query, the date selector, the
 * split of the listed rooms into "mine", "upcoming" and "departed", the
 * room card's full rule, joining a room, and creating one.
 */
module Rooms {
  import opened Wrappers
  import opened Types
  import opened Seqs
  import opened Text
  import opened Store

  /** The capacity every created room gets. */
  const CreatedRoomCapacity: int := 4

  // ---------------------------------------------------------------------------
  // The room list query
  // ---------------------------------------------------------------------------

  /** The `.eq(...)` clauses of the list query: the route, the selected date, status 'active'. */
  function MatchesQuery(from: Location, to: Location, date: Day): ChatRoom -> bool {
    (r: ChatRoom) => r.fromLocation == from && r.toLocation == to && r.departureDate == date && r.status == RoomActive
  }

  /** `.order('departure_time', { ascending: true })`. */
  function ByDepartureTime(): (ChatRoom, ChatRoom) -> bool {
    (a: ChatRoom, b: ChatRoom) => LexLe(a.departureTime, b.departureTime)
  }

  /** A room with its participant rows joined on, as the list query selects it. */
  function WithParticipants(room: ChatRoom, parts: seq<RoomParticipant>): ChatRoom {
    room.(participants := Some(RoomRows(parts, room.id)))
  }

  function JoinAll(rooms: seq<ChatRoom>, parts: seq<RoomParticipant>): (r: seq<ChatRoom>)
    ensures |r| == |rooms|
    ensures forall k :: 0 <= k < |rooms| ==> r[k] == WithParticipants(rooms[k], parts)
  {
    seq(|rooms|, k requires 0 <= k < |rooms| => WithParticipants(rooms[k], parts))
  }

  /** `loadRooms`: the rooms of the route on the selected date, with their participants, by departure time. */
  function ListRooms(rooms: seq<ChatRoom>, parts: seq<RoomParticipant>, from: Location, to: Location, date: Day): seq<ChatRoom> {
    SortBy(Filter(JoinAll(rooms, parts), MatchesQuery(from, to, date)), ByDepartureTime())
  }

  /**
   * The list holds exactly the stored rooms of the route, the date and status
   * 'active' (each as often as it is stored, with exactly its own participant
   * rows attached), ordered by departure time ascending.
   */
  lemma ListRoomsSpec(rooms: seq<ChatRoom>, parts: seq<RoomParticipant>, from: Location, to: Location, date: Day)
    ensures var list := ListRooms(rooms, parts, from, to, date);
      && (forall r :: r in list ==>
            r.fromLocation == from && r.toLocation == to && r.departureDate == date && r.status == RoomActive
            && r.participants == Some(RoomRows(parts, r.id)))
      && (forall i, j :: 0 <= i < j < |list| ==> LexLe(list[i].departureTime, list[j].departureTime))
      && multiset(list) == multiset(Filter(JoinAll(rooms, parts), MatchesQuery(from, to, date)))
      && (forall k :: 0 <= k < |rooms| && MatchesQuery(from, to, date)(rooms[k]) ==> WithParticipants(rooms[k], parts) in list)
  {
    var joined := JoinAll(rooms, parts);
    var kept := Filter(joined, MatchesQuery(from, to, date));
    var list := ListRooms(rooms, parts, from, to, date);
    SortByPermutes(kept, ByDepartureTime());
    LexLeTotalPreorder();
    assert TotalPreorder(ByDepartureTime());
    SortBySorted(kept, ByDepartureTime());
    forall r | r in list
      ensures r.fromLocation == from && r.toLocation == to && r.departureDate == date && r.status == RoomActive
      ensures r.participants == Some(RoomRows(parts, r.id))
    {
      SortByMember(kept, ByDepartureTime(), r);
      var k :| 0 <= k < |joined| && joined[k] == r;
    }
    forall k | 0 <= k < |rooms| && MatchesQuery(from, to, date)(rooms[k])
      ensures WithParticipants(rooms[k], parts) in list
    {
      assert joined[k] in joined;
      FilterMember(joined, MatchesQuery(from, to, date), joined[k]);
      SortByMember(kept, ByDepartureTime(), joined[k]);
    }
  }

  // ---------------------------------------------------------------------------
  // The date selector
  // ---------------------------------------------------------------------------

  datatype DateOption = DateOption(value: Day, caption: string)

  /** The label of the option `offset` days from today. */
  function DateLabel(offset: int): string {
    if offset == 0 then "오늘" else if offset == 1 then "내일" else "어제"
  }

  /** `getDateOptions`: yesterday, today and tomorrow, in that order. */
  method GetDateOptions(today: Day) returns (dates: seq<DateOption>)
    ensures |dates| == 3
    ensures dates[0] == DateOption(today - 1, "어제")
    ensures dates[1] == DateOption(today, "오늘")
    ensures dates[2] == DateOption(today + 1, "내일")
  {
    dates := [];
    for i := -1 to 2
      invariant |dates| == i + 1
      invariant forall k :: 0 <= k < |dates| ==> dates[k] == DateOption(today + k - 1, DateLabel(k - 1))
    {
      dates := dates + [DateOption(today + i, DateLabel(i))];
    }
  }

  // ---------------------------------------------------------------------------
  // The split of the listed rooms
  // ---------------------------------------------------------------------------

  datatype Category = Mine | Upcoming | Departed

  /** `room.participants?.some(p => p.user_id === user?.id)`; with no user nobody matches. */
  predicate IsParticipant(room: ChatRoom, user: Option<User>) {
    && user.Some?
    && room.participants.Some?
    && exists p :: p in room.participants.value && p.userId == user.value.id
  }

  /** The section a room is shown in. Times compare as strings, as in the page. */
  function Categorize(room: ChatRoom, user: Option<User>, isToday: bool, currentTime: string): Category {
    if IsParticipant(room, user) then Mine
    else if isToday && LexLess(room.departureTime, currentTime) then Departed
    else Upcoming
  }

  function CategoryOf(user: Option<User>, isToday: bool, currentTime: string): ChatRoom -> Category {
    (r: ChatRoom) => Categorize(r, user, isToday, currentTime)
  }

  function InCategory(cat: Category, user: Option<User>, isToday: bool, currentTime: string): ChatRoom -> bool {
    KeyIs(CategoryOf(user, isToday, currentTime), cat)
  }

  /** The rooms of one section, in list order. */
  function Section(rooms: seq<ChatRoom>, cat: Category, user: Option<User>, isToday: bool, currentTime: string): seq<ChatRoom> {
    Filter(rooms, InCategory(cat, user, isToday, currentTime))
  }

  /**
   * `separateRooms`: one pass over the list, pushing each room onto the end of
   * its section. Each section is the list filtered to that section, so it
   * keeps the list's order.
   */
  method SeparateRooms(rooms: seq<ChatRoom>, user: Option<User>, selectedDate: Day, today: Day, currentTime: string)
    returns (myRooms: seq<ChatRoom>, futureRooms: seq<ChatRoom>, pastRooms: seq<ChatRoom>)
    ensures myRooms == Section(rooms, Mine, user, selectedDate == today, currentTime)
    ensures futureRooms == Section(rooms, Upcoming, user, selectedDate == today, currentTime)
    ensures pastRooms == Section(rooms, Departed, user, selectedDate == today, currentTime)
  {
    var isToday := selectedDate == today;
    myRooms, futureRooms, pastRooms := [], [], [];
    var i := 0;
    while i < |rooms|
      invariant 0 <= i <= |rooms|
      invariant myRooms == Section(rooms[..i], Mine, user, isToday, currentTime)
      invariant futureRooms == Section(rooms[..i], Upcoming, user, isToday, currentTime)
      invariant pastRooms == Section(rooms[..i], Departed, user, isToday, currentTime)
    {
      var room := rooms[i];
      assert rooms[..i + 1] == rooms[..i] + [room];
      SectionStep(rooms[..i], room, user, isToday, currentTime);
      if IsParticipant(room, user) {
        myRooms := myRooms + [room];
      } else if isToday && LexLess(room.departureTime, currentTime) {
        pastRooms := pastRooms + [room];
      } else {
        futureRooms := futureRooms + [room];
      }
      i := i + 1;
    }
    assert rooms[..i] == rooms;
  }

  /** Appending a room to the list appends it to its own section and leaves the other two alone. */
  lemma SectionStep(prefix: seq<ChatRoom>, room: ChatRoom, user: Option<User>, isToday: bool, currentTime: string)
    ensures var c := Categorize(room, user, isToday, currentTime);
      && Section(prefix + [room], c, user, isToday, currentTime) == Section(prefix, c, user, isToday, currentTime) + [room]
      && (forall d :: d != c ==>
            Section(prefix + [room], d, user, isToday, currentTime) == Section(prefix, d, user, isToday, currentTime))
  {
    forall d: Category ensures Section(prefix + [room], d, user, isToday, currentTime)
                               == Section(prefix, d, user, isToday, currentTime)
                                  + (if Categorize(room, user, isToday, currentTime) == d then [room] else [])
    {
      FilterAppend(prefix, [room], InCategory(d, user, isToday, currentTime));
    }
  }

  /** A room counts towards exactly one of the three categories. */
  lemma CountedOnce(x: ChatRoom, y: ChatRoom, c: Category)
    ensures Counted(x, y, c == Mine) + Counted(x, y, c == Upcoming) + Counted(x, y, c == Departed) == Counted(x, y, true)
  {
  }

  /** Filtering by the three values of any category function splits the list: every room is counted once. */
  lemma {:induction false} CategoriesPartition(rooms: seq<ChatRoom>, f: ChatRoom -> Category, y: ChatRoom)
    ensures multiset(Filter(rooms, KeyIs(f, Mine)))[y]
          + multiset(Filter(rooms, KeyIs(f, Upcoming)))[y]
          + multiset(Filter(rooms, KeyIs(f, Departed)))[y] == multiset(rooms)[y]
  {
    if rooms != [] {
      var x, rest := rooms[0], rooms[1..];
      CategoriesPartition(rest, f, y);
      CountHead(rooms, y);
      FilterCountHead(rooms, KeyIs(f, Mine), y);
      FilterCountHead(rooms, KeyIs(f, Upcoming), y);
      FilterCountHead(rooms, KeyIs(f, Departed), y);
      assert KeyIs(f, Mine)(x) == (f(x) == Mine);
      assert KeyIs(f, Upcoming)(x) == (f(x) == Upcoming);
      assert KeyIs(f, Departed)(x) == (f(x) == Departed);
      CountedOnce(x, y, f(x));
    }
  }

  /** Every listed room lands in exactly one section: together the sections are the list. */
  lemma SectionsPartition(rooms: seq<ChatRoom>, user: Option<User>, isToday: bool, currentTime: string)
    ensures multiset(Section(rooms, Mine, user, isToday, currentTime))
          + multiset(Section(rooms, Upcoming, user, isToday, currentTime))
          + multiset(Section(rooms, Departed, user, isToday, currentTime)) == multiset(rooms)
    ensures |Section(rooms, Mine, user, isToday, currentTime)|
          + |Section(rooms, Upcoming, user, isToday, currentTime)|
          + |Section(rooms, Departed, user, isToday, currentTime)| == |rooms|
  {
    var f := CategoryOf(user, isToday, currentTime);
    var m, u, d := Section(rooms, Mine, user, isToday, currentTime), Section(rooms, Upcoming, user, isToday, currentTime),
      Section(rooms, Departed, user, isToday, currentTime);
    forall y ensures multiset(m)[y] + multiset(u)[y] + multiset(d)[y] == multiset(rooms)[y] {
      CategoriesPartition(rooms, f, y);
    }
    assert multiset(m) + multiset(u) + multiset(d) == multiset(rooms);
  }

  /** A room the user participates in is shown under "mine" and nowhere else, whatever its date or time. */
  lemma ParticipantRoomIsMine(rooms: seq<ChatRoom>, user: Option<User>, isToday: bool, currentTime: string, room: ChatRoom)
    requires room in rooms && IsParticipant(room, user)
    ensures room in Section(rooms, Mine, user, isToday, currentTime)
    ensures room !in Section(rooms, Upcoming, user, isToday, currentTime)
    ensures room !in Section(rooms, Departed, user, isToday, currentTime)
  {
    FilterMember(rooms, InCategory(Mine, user, isToday, currentTime), room);
  }

  /**
   * A listed room the user is not in is "departed" exactly when the selected
   * date is today and its departure time is before the current time, and
   * "upcoming" otherwise.
   */
  lemma OtherRoomSection(rooms: seq<ChatRoom>, user: Option<User>, isToday: bool, currentTime: string, room: ChatRoom)
    requires room in rooms && !IsParticipant(room, user)
    ensures room in Section(rooms, Departed, user, isToday, currentTime)
            <==> isToday && LexLess(room.departureTime, currentTime)
    ensures room in Section(rooms, Upcoming, user, isToday, currentTime)
            <==> !(isToday && LexLess(room.departureTime, currentTime))
    ensures room !in Section(rooms, Mine, user, isToday, currentTime)
  {
    FilterMember(rooms, InCategory(Departed, user, isToday, currentTime), room);
    FilterMember(rooms, InCategory(Upcoming, user, isToday, currentTime), room);
  }

  /** On any date other than today nothing is "departed". */
  lemma NoDepartedUnlessToday(rooms: seq<ChatRoom>, user: Option<User>, currentTime: string)
    ensures Section(rooms, Departed, user, false, currentTime) == []
  {
    FilterNone(rooms, InCategory(Departed, user, false, currentTime));
  }

  // ---------------------------------------------------------------------------
  // The room card and joining
  // ---------------------------------------------------------------------------

  /** `room.participants?.length || 0`. */
  function ParticipantCount(room: ChatRoom): nat {
    if room.participants.Some? then |room.participants.value| else 0
  }

  /** The room card's join button is disabled, and reads "full", under this condition. */
  predicate JoinDisabled(room: ChatRoom) {
    ParticipantCount(room) >= room.maxParticipants
  }

  /** `rooms.find(r => r.id === roomId)`: the first listed room with that id. */
  function FindRoom(rooms: seq<ChatRoom>, id: Id): (r: Option<ChatRoom>)
    ensures r.None? <==> forall k :: 0 <= k < |rooms| ==> rooms[k].id != id
    ensures r.Some? ==> exists k :: 0 <= k < |rooms| && rooms[k] == r.value && r.value.id == id
                          && forall j :: 0 <= j < k ==> rooms[j].id != id
  {
    if rooms == [] then None
    else if rooms[0].id == id then Some(rooms[0])
    else
      var r := FindRoom(rooms[1..], id);
      if r.Some? then
        var k :| 0 <= k < |rooms[1..]| && rooms[1..][k] == r.value && r.value.id == id
                 && forall j :: 0 <= j < k ==> rooms[1..][j].id != id;
        assert rooms[k + 1] == r.value;
        r
      else
        r
  }

  /** What joining showed the user: nothing, one of three errors, or the room's chat. */
  datatype JoinOutcome = JoinIgnored | RoomFull | AlreadyJoined | JoinFailed | Joined(roomId: Id)

  /**
   * `handleJoinRoom`: with no signed-in user, or a room id that is not in the
   * shown list, nothing happens. A room whose shown participant count has
   * reached its capacity is reported full with nothing inserted. Otherwise one
   * unconfirmed participant row is inserted; a uniqueness violation is
   * reported as "already joined" and any other refusal as a generic failure.
   */
  method HandleJoinRoom(store: Store, rooms: seq<ChatRoom>, roomId: Id, user: Option<User>, fault: bool)
    returns (outcome: JoinOutcome)
    requires store.Valid()
    modifies store`participants, store`nextId
    ensures store.Valid()
    ensures outcome == JoinIgnored <==> user.None? || FindRoom(rooms, roomId).None?
    ensures user.Some? && FindRoom(rooms, roomId).Some? ==>
      (outcome == RoomFull <==> JoinDisabled(FindRoom(rooms, roomId).value))
    ensures outcome == AlreadyJoined <==>
      && user.Some? && FindRoom(rooms, roomId).Some? && !JoinDisabled(FindRoom(rooms, roomId).value)
      && !fault && HasPair(old(store.participants), roomId, user.value.id)
    ensures outcome.Joined? <==>
      && user.Some? && FindRoom(rooms, roomId).Some? && !JoinDisabled(FindRoom(rooms, roomId).value)
      && !fault && !HasPair(old(store.participants), roomId, user.value.id)
      && HasRoom(store.rooms, roomId) && HasUser(store.users, user.value.id)
    ensures outcome == JoinFailed <==>
      && user.Some? && FindRoom(rooms, roomId).Some? && !JoinDisabled(FindRoom(rooms, roomId).value)
      && (fault || (!HasPair(old(store.participants), roomId, user.value.id)
                    && !(HasRoom(store.rooms, roomId) && HasUser(store.users, user.value.id))))
    ensures outcome.Joined? ==>
      && outcome.roomId == roomId
      && store.participants == old(store.participants)
           + [RoomParticipant(old(store.nextId), roomId, user.value.id, false, store.clock)]
    ensures !outcome.Joined? ==> store.participants == old(store.participants) && store.nextId == old(store.nextId)
    ensures outcome.Joined? ==> HasPair(store.participants, roomId, user.value.id)
    ensures outcome == AlreadyJoined ==> HasPair(store.participants, roomId, user.value.id)
    // When the shown room is current with the store and within capacity, it stays within capacity.
    ensures user.Some? && FindRoom(rooms, roomId).Some?
            && FindRoom(rooms, roomId).value.participants == Some(RoomRows(old(store.participants), roomId))
            && |RoomRows(old(store.participants), roomId)| <= FindRoom(rooms, roomId).value.maxParticipants
            ==> |RoomRows(store.participants, roomId)| <= FindRoom(rooms, roomId).value.maxParticipants
  {
    if user.None? {
      return JoinIgnored;
    }
    var found := FindRoom(rooms, roomId);
    if found.None? {
      return JoinIgnored;
    }
    var room := found.value;
    if ParticipantCount(room) >= room.maxParticipants {
      return RoomFull;
    }
    ghost var before := store.participants;
    var result := store.InsertParticipant(roomId, user.value.id, false, fault);
    if result.Refused? {
      if IsDuplicate(result.error) {
        outcome := AlreadyJoined;
      } else {
        outcome := JoinFailed;
      }
      return;
    }
    var row := RoomParticipant(result.id, roomId, user.value.id, false, store.clock);
    RowsAfterAppend(before, row);
    assert row in store.participants;
    outcome := Joined(roomId);
  }

  // ---------------------------------------------------------------------------
  // Creating a room
  // ---------------------------------------------------------------------------

  /** The title of a created room: `"<time> <from>→<to>"` with the locations' display names. */
  function RoomTitle(time: string, from: Location, to: Location): string {
    Interpolate([time, " ", LocationName(from), "→", LocationName(to)])
  }

  /** The row a created room is inserted as. */
  function CreatedRoom(id: Id, from: Location, to: Location, date: Day, time: string, creator: Id, at: Instant): ChatRoom {
    ChatRoom(id, RoomTitle(time, from, to), from, to, date, time, CreatedRoomCapacity, creator, RoomActive, at, None)
  }

  datatype CreateOutcome = CreateIgnored | Created(roomId: Id) | CreateFailed

  /** No stored participant row refers to a room id the store has not handed out yet. */
  lemma NoRowsForFreshRoom(store: Store)
    requires store.Valid()
    ensures RoomRows(store.participants, store.nextId) == []
  {
    forall k | 0 <= k < |store.participants| ensures !OfRoom(store.nextId)(store.participants[k]) {
      var r :| r in store.rooms && r.id == store.participants[k].roomId;
      var m :| 0 <= m < |store.rooms| && store.rooms[m] == r;
    }
    FilterNone(store.participants, OfRoom(store.nextId));
  }

  /** Appending a participant row adds it, and only it, to its room's rows. */
  lemma RowsAfterAppend(parts: seq<RoomParticipant>, row: RoomParticipant)
    ensures RoomRows(parts + [row], row.roomId) == RoomRows(parts, row.roomId) + [row]
  {
    FilterAppend(parts, [row], OfRoom(row.roomId));
  }

  /** A room without participant rows has no participant row for any user. */
  lemma NoPairWithoutRows(parts: seq<RoomParticipant>, roomId: Id, userId: Id)
    requires RoomRows(parts, roomId) == []
    ensures !HasPair(parts, roomId, userId)
  {
    if HasPair(parts, roomId, userId) {
      var p :| p in parts && p.roomId == roomId && p.userId == userId;
      FilterMember(parts, OfRoom(roomId), p);
    }
  }

  /**
   * The second write of room creation: the creator joins the new, still empty
   * room as a confirmed participant. Only a transient failure can refuse it.
   */
  method InsertCreator(store: Store, roomId: Id, userId: Id, fault: bool) returns (added: bool)
    requires store.Valid()
    requires HasRoom(store.rooms, roomId) && HasUser(store.users, userId)
    requires RoomRows(store.participants, roomId) == []
    modifies store`participants, store`nextId
    ensures store.Valid()
    ensures added <==> !fault
    ensures added ==>
      && store.participants == old(store.participants) + [RoomParticipant(old(store.nextId), roomId, userId, true, store.clock)]
      && RoomRows(store.participants, roomId) == [RoomParticipant(old(store.nextId), roomId, userId, true, store.clock)]
    ensures !added ==> store.participants == old(store.participants) && store.nextId == old(store.nextId)
  {
    ghost var before := store.participants;
    NoPairWithoutRows(store.participants, roomId, userId);
    var result := store.InsertParticipant(roomId, userId, true, fault);
    if result.Refused? {
      return false;
    }
    RowsAfterAppend(before, RoomParticipant(result.id, roomId, userId, true, store.clock));
    added := true;
  }

  /**
   * `CreateRoomModal.handleCreateRoom`: with no departure time or no user,
   * nothing happens. Otherwise a room of capacity 4 created by the user is
   * inserted, and then the user is inserted as its confirmed participant.
   * When the second insert is refused, the room stays stored without its
   * creator: the two writes are not one transaction.
   */
  method HandleCreateRoom(store: Store, from: Location, to: Location, selectedDate: Day, departureTime: string,
                          user: Option<User>, roomFault: bool, participantFault: bool)
    returns (outcome: CreateOutcome)
    requires store.Valid()
    modifies store`rooms, store`participants, store`nextId
    ensures store.Valid()
    ensures departureTime == "" || user.None? ==>
      outcome == CreateIgnored && store.rooms == old(store.rooms) && store.participants == old(store.participants)
    ensures outcome == CreateIgnored <==> departureTime == "" || user.None?
    ensures outcome.Created? <==>
      departureTime != "" && user.Some? && !roomFault && HasUser(store.users, user.value.id) && !participantFault
    ensures outcome.Created? ==>
      && outcome.roomId == old(store.nextId)
      && store.rooms == old(store.rooms)
           + [CreatedRoom(outcome.roomId, from, to, selectedDate, departureTime, user.value.id, store.clock)]
      && store.participants == old(store.participants)
           + [RoomParticipant(outcome.roomId + 1, outcome.roomId, user.value.id, true, store.clock)]
      && RoomRows(store.participants, outcome.roomId)
           == [RoomParticipant(outcome.roomId + 1, outcome.roomId, user.value.id, true, store.clock)]
    ensures outcome == CreateFailed ==> store.participants == old(store.participants)
    ensures outcome == CreateFailed && (roomFault || !HasUser(store.users, user.value.id)) ==>
      store.rooms == old(store.rooms)
    // The half-done state: the room is stored, its creator is not.
    ensures departureTime != "" && user.Some? && !roomFault && HasUser(store.users, user.value.id) && participantFault ==>
      outcome == CreateFailed
    ensures outcome == CreateFailed && !roomFault && HasUser(store.users, user.value.id) ==>
      && participantFault
      && store.rooms == old(store.rooms)
           + [CreatedRoom(old(store.nextId), from, to, selectedDate, departureTime, user.value.id, store.clock)]
  {
    if departureTime == "" || user.None? {
      return CreateIgnored;
    }
    var title := RoomTitle(departureTime, from, to);
    NoRowsForFreshRoom(store);
    var roomResult := store.InsertRoom(title, from, to, selectedDate, departureTime, CreatedRoomCapacity,
                                       user.value.id, roomFault);
    if roomResult.Refused? {
      return CreateFailed;
    }
    var newId := roomResult.id;
    assert store.rooms[|store.rooms| - 1].id == newId;
    var added := InsertCreator(store, newId, user.value.id, participantFault);
    if !added {
      return CreateFailed;
    }
    outcome := Created(newId);
  }
}
