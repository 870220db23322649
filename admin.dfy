/**
 * The administrator dashboard: who may use it, the four tabs and the data
 * each one loads, the ordering of the lists, the user search, the report
 * buttons and the two status changes an administrator can make. The signed-in
 * account and the configured administrator email are parameters.
 */
module Admin {
  import opened Wrappers
  import opened Types
  import opened Seqs
  import opened Text
  import opened Store
  import Rooms

  // ---------------------------------------------------------------------------
  // Authorisation
  // ---------------------------------------------------------------------------

  /**
   * A profile may use the dashboard when it carries the administrator flag or
   * its email is the configured administrator email. With no email
   * configured only the flag counts.
   */
  predicate IsAuthorized(user: User, adminEmail: Option<string>) {
    user.isAdmin || (adminEmail.Some? && user.email == adminEmail.value)
  }

  /** Without a configured email, exactly the flagged profiles are administrators. */
  lemma UnconfiguredEmailMeansFlagOnly(user: User)
    ensures IsAuthorized(user, None) <==> user.isAdmin
  {
  }

  /** The flag alone and the configured email alone each suffice. */
  lemma EitherRouteAuthorizes(user: User, adminEmail: Option<string>)
    ensures user.isAdmin ==> IsAuthorized(user, adminEmail)
    ensures IsAuthorized(user, Some(user.email))
  {
  }

  // ---------------------------------------------------------------------------
  // The lists and their orderings
  // ---------------------------------------------------------------------------

  function UserCreatedAt(): User -> int { (u: User) => u.createdAt }
  function ReportCreatedAt(): Report -> int { (r: Report) => r.createdAt }
  function RoomCreatedAt(): ChatRoom -> int { (r: ChatRoom) => r.createdAt }
  function MessageCreatedAt(): Message -> int { (m: Message) => m.createdAt }

  /** `.from('users').select('*').order('created_at', { ascending: false })` */
  function UserList(users: seq<User>): seq<User> {
    SortBy(users, Descending(UserCreatedAt()))
  }

  /** `.from('reports').select(...).order('created_at', { ascending: false })` */
  function ReportList(reports: seq<Report>): seq<Report> {
    SortBy(reports, Descending(ReportCreatedAt()))
  }

  /** `.from('chat_rooms').select('*, participants:room_participants(...)').order('created_at', { ascending: false })` */
  function RoomList(rooms: seq<ChatRoom>, parts: seq<RoomParticipant>): seq<ChatRoom> {
    SortBy(Rooms.JoinAll(rooms, parts), Descending(RoomCreatedAt()))
  }

  /** `.eq('room_id', roomId)` on `messages`. */
  function InRoom(roomId: Id): Message -> bool {
    (m: Message) => m.roomId == roomId
  }

  /** `.from('messages').select(...).eq('room_id', roomId).order('created_at', { ascending: true })` */
  function MessageList(messages: seq<Message>, roomId: Id): seq<Message> {
    SortBy(Filter(messages, InRoom(roomId)), Ascending(MessageCreatedAt()))
  }

  /** The user list holds every user once, newest first. */
  lemma UserListSpec(users: seq<User>)
    ensures var list := UserList(users);
      && multiset(list) == multiset(users)
      && forall i, j :: 0 <= i < j < |list| ==> list[i].createdAt >= list[j].createdAt
  {
    SortDescendingSpec(users, UserCreatedAt());
  }

  /** The report list holds every report once, newest first. */
  lemma ReportListSpec(reports: seq<Report>)
    ensures var list := ReportList(reports);
      && multiset(list) == multiset(reports)
      && forall i, j :: 0 <= i < j < |list| ==> list[i].createdAt >= list[j].createdAt
  {
    SortDescendingSpec(reports, ReportCreatedAt());
  }

  /** The room list holds every room once, with its participant rows attached, newest first. */
  lemma RoomListSpec(rooms: seq<ChatRoom>, parts: seq<RoomParticipant>)
    ensures var list := RoomList(rooms, parts);
      && |list| == |rooms|
      && (forall r :: r in list <==> exists k :: 0 <= k < |rooms| && r == Rooms.WithParticipants(rooms[k], parts))
      && forall i, j :: 0 <= i < j < |list| ==> list[i].createdAt >= list[j].createdAt
  {
    var joined := Rooms.JoinAll(rooms, parts);
    SortDescendingSpec(joined, RoomCreatedAt());
    var list := RoomList(rooms, parts);
    assert |multiset(list)| == |multiset(joined)|;
    forall r ensures r in list <==> exists k :: 0 <= k < |rooms| && r == Rooms.WithParticipants(rooms[k], parts) {
      assert r in list <==> r in multiset(list);
      assert r in joined <==> r in multiset(joined);
      if r in joined {
        var k :| 0 <= k < |joined| && joined[k] == r;
      }
    }
  }

  /** The message list holds exactly the messages of the room, each as often as stored, oldest first. */
  lemma MessageListSpec(messages: seq<Message>, roomId: Id)
    ensures var list := MessageList(messages, roomId);
      && multiset(list) == multiset(Filter(messages, InRoom(roomId)))
      && (forall m :: m in list <==> m in messages && m.roomId == roomId)
      && forall i, j :: 0 <= i < j < |list| ==> list[i].createdAt <= list[j].createdAt
  {
    var kept := Filter(messages, InRoom(roomId));
    SortAscendingSpec(kept, MessageCreatedAt());
    var list := MessageList(messages, roomId);
    forall m ensures m in list <==> m in messages && m.roomId == roomId {
      assert m in list <==> m in multiset(list);
      assert m in kept <==> m in multiset(kept);
      FilterMember(messages, InRoom(roomId), m);
    }
  }

  // ---------------------------------------------------------------------------
  // The user search
  // ---------------------------------------------------------------------------

  /** A user matches a search when the lower-cased term occurs in the lower-cased nickname, email or department. */
  function MatchesSearch(term: string): User -> bool {
    (u: User) =>
      || Contains(ToLower(u.nickname), ToLower(term))
      || Contains(ToLower(u.email), ToLower(term))
      || Contains(ToLower(u.department), ToLower(term))
  }

  /** `filteredUsers`: the loaded users that match the search term, in list order. */
  function FilteredUsers(users: seq<User>, term: string): seq<User> {
    Filter(users, MatchesSearch(term))
  }

  /** A user is shown exactly when it is loaded and one of its three fields contains the term, ignoring case. */
  lemma FilteredUsersSpec(users: seq<User>, term: string, u: User)
    ensures u in FilteredUsers(users, term) <==>
      && u in users
      && (|| Contains(ToLower(u.nickname), ToLower(term))
          || Contains(ToLower(u.email), ToLower(term))
          || Contains(ToLower(u.department), ToLower(term)))
  {
    FilterMember(users, MatchesSearch(term), u);
  }

  /** An empty search shows every loaded user. */
  lemma EmptySearchShowsAll(users: seq<User>)
    ensures FilteredUsers(users, "") == users
  {
    forall i | 0 <= i < |users| ensures MatchesSearch("")(users[i]) {
      ContainsEmpty(ToLower(users[i].nickname));
    }
    FilterAll(users, MatchesSearch(""));
  }

  /** The search ignores the case of the term. */
  lemma SearchIgnoresCase(users: seq<User>, term: string)
    ensures FilteredUsers(users, ToLower(term)) == FilteredUsers(users, term)
  {
    ToLowerIdempotent(term);
    FilterAgree(users, MatchesSearch(ToLower(term)), MatchesSearch(term));
  }

  // ---------------------------------------------------------------------------
  // Status changes
  // ---------------------------------------------------------------------------

  /** The position of a status in the review process. */
  function ReviewStage(s: ReportStatus): nat {
    match s
    case Pending => 0
    case Reviewed => 1
    case Resolved => 2
  }

  /** The buttons a report card offers: start review on a pending report, finish it on a reviewed one. */
  function ReportActions(s: ReportStatus): seq<ReportStatus> {
    match s
    case Pending => [Reviewed]
    case Reviewed => [Resolved]
    case Resolved => []
  }

  /** The card offers exactly the next stage: never a step back, never a skipped stage. */
  lemma ReportActionsAdvanceOneStage(s: ReportStatus, t: ReportStatus)
    ensures t in ReportActions(s) <==> ReviewStage(t) == ReviewStage(s) + 1
  {
  }

  /** The status the user row's toggle asks for: suspend an active user, reactivate a suspended one. */
  function ToggledStatus(s: UserStatus): UserStatus {
    match s
    case Active => Suspended
    case Suspended => Active
  }

  /** The toggle always asks for the other status, and toggling twice comes back. */
  lemma ToggleIsInvolution(s: UserStatus)
    ensures ToggledStatus(s) != s
    ensures ToggledStatus(ToggledStatus(s)) == s
  {
  }

  /** A notification the dashboard shows. */
  datatype Notice = SuccessNotice(text: string) | ErrorNotice(text: string)

  function UserStatusChangedMessage(status: UserStatus): string {
    "사용자가 " + (if status == Suspended then "정지" else "정지 해제") + "되었습니다"
  }

  const UserStatusErrorMessage: string := "사용자 상태 변경 중 오류가 발생했습니다"
  const ReportStatusChangedMessage: string := "신고 상태가 변경되었습니다"
  const ReportStatusErrorMessage: string := "신고 상태 변경 중 오류가 발생했습니다"

  /**
   * `handleReportStatusChange` does not check the transition, only the
   * buttons do: asked to mark a resolved report as reviewed, the table it
   * writes has that report reviewed again, one stage back, a move no button
   * of a resolved report offers.
   */
  lemma ReportHandlerSkipsTransitionCheck(reports: seq<Report>, k: nat)
    requires k < |reports| && reports[k].status == Resolved
    ensures Reviewed !in ReportActions(reports[k].status)
    ensures var updated := WithReportStatus(reports, reports[k].id, Reviewed);
      updated[k].status == Reviewed && ReviewStage(updated[k].status) < ReviewStage(reports[k].status)
  {
  }

  // ---------------------------------------------------------------------------
  // The room selector of the messages tab
  // ---------------------------------------------------------------------------

  /**
   * The messages shown after picking `chosen` in the room selector, as the
   * page is written: the handler records the choice and then loads messages
   * with the room id of the render it belongs to, which is the previous
   * choice. When there was none, nothing is loaded.
   */
  function MessagesAfterSelectAsWritten(shown: seq<Message>, previous: Option<Id>, chosen: Option<Id>, all: seq<Message>): seq<Message> {
    if chosen.Some? && previous.Some? then MessageList(all, previous.value) else shown
  }

  /** The messages shown after picking `chosen`: those of the chosen room. */
  function MessagesAfterSelect(shown: seq<Message>, chosen: Option<Id>, all: seq<Message>): seq<Message> {
    if chosen.Some? then MessageList(all, chosen.value) else shown
  }

  /**
   * As written, picking a first room shows none of its messages, and switching
   * rooms shows the messages of the room picked before.
   */
  lemma StaleRoomSelection()
    ensures var all := [Message(1, 7, 2, "안녕", 0), Message(2, 3, 2, "hi", 1)];
      && MessagesAfterSelectAsWritten([], None, Some(7), all) == []
      && MessagesAfterSelectAsWritten([], Some(3), Some(7), all) == [all[1]]
      && MessagesAfterSelect([], Some(7), all) == [all[0]]
  {
    var all := [Message(1, 7, 2, "안녕", 0), Message(2, 3, 2, "hi", 1)];
    assert Filter(all, InRoom(7)) == [all[0]] by {
      assert Filter(all[1..], InRoom(7)) == [];
    }
    assert Filter(all, InRoom(3)) == [all[1]] by {
      assert all[1..] == [all[1]];
    }
  }

  /** Picking a room shows exactly that room's messages, oldest first. */
  lemma SelectShowsChosenRoom(shown: seq<Message>, roomId: Id, all: seq<Message>)
    ensures var list := MessagesAfterSelect(shown, Some(roomId), all);
      && (forall m :: m in list <==> m in all && m.roomId == roomId)
      && forall i, j :: 0 <= i < j < |list| ==> list[i].createdAt <= list[j].createdAt
  {
    MessageListSpec(all, roomId);
  }

  // ---------------------------------------------------------------------------
  // The page
  // ---------------------------------------------------------------------------

  datatype Tab = ReportsTab | UsersTab | RoomsTab | MessagesTab

  class AdminDashboard {
    var user: Option<User>
    var loading: bool
    var activeTab: Tab
    var isAuthorized: bool
    var users: seq<User>
    var reports: seq<Report>
    var rooms: seq<ChatRoom>
    var messages: seq<Message>
    var searchTerm: string
    var selectedRoomId: Option<Id>
    /** The page has sent the browser back to the home page. */
    var redirectedHome: bool

    constructor ()
      ensures user.None? && loading && activeTab == ReportsTab && !isAuthorized
      ensures users == [] && reports == [] && rooms == [] && messages == []
      ensures searchTerm == "" && selectedRoomId.None? && !redirectedHome
    {
      user, loading, activeTab, isAuthorized := None, true, ReportsTab, false;
      users, reports, rooms, messages := [], [], [], [];
      searchTerm, selectedRoomId, redirectedHome := "", None, false;
    }

    /**
     * `checkAuthAndLoadData`: no signed-in account goes home; an account
     * without exactly one profile row stays on the page, unauthorised; a
     * profile is recorded, and is either authorised or sent home.
     */
    method CheckAuthAndLoadData(store: Store, authUser: Option<Id>, adminEmail: Option<string>)
      modifies this`user, this`isAuthorized, this`loading, this`redirectedHome
      ensures !loading
      ensures authUser.None? ==> redirectedHome && user == old(user) && isAuthorized == old(isAuthorized)
      ensures authUser.Some? ==>
        var profile := ProfileOf(store.users, authUser.value);
        && user == (if profile.Some? then profile else old(user))
        && isAuthorized == (old(isAuthorized) || (profile.Some? && IsAuthorized(profile.value, adminEmail)))
        && redirectedHome == (old(redirectedHome) || (profile.Some? && !IsAuthorized(profile.value, adminEmail)))
    {
      if authUser.None? {
        redirectedHome := true;
        loading := false;
        return;
      }
      var userData := ProfileOf(store.users, authUser.value);
      if userData.Some? {
        user := userData;
        if userData.value.isAdmin || (adminEmail.Some? && userData.value.email == adminEmail.value) {
          isAuthorized := true;
        } else {
          redirectedHome := true;
        }
      }
      loading := false;
    }

    /** `loadTabData`: load the list of the active tab; the messages tab loads only with a room selected. */
    method LoadTabData(store: Store)
      modifies this`users, this`reports, this`rooms, this`messages
      ensures users == if activeTab == UsersTab then UserList(store.users) else old(users)
      ensures reports == if activeTab == ReportsTab then ReportList(store.reports) else old(reports)
      ensures rooms == if activeTab == RoomsTab then RoomList(store.rooms, store.participants) else old(rooms)
      ensures messages ==
        if activeTab == MessagesTab && selectedRoomId.Some? then MessageList(store.messages, selectedRoomId.value)
        else old(messages)
    {
      match activeTab
      case UsersTab => users := UserList(store.users);
      case ReportsTab => reports := ReportList(store.reports);
      case RoomsTab => rooms := RoomList(store.rooms, store.participants);
      case MessagesTab =>
        if selectedRoomId.Some? {
          messages := MessageList(store.messages, selectedRoomId.value);
        }
    }

    /**
     * Opening the page: the authorisation check, then the load the page runs
     * whenever the authorisation or the tab changes.
     */
    method Open(store: Store, authUser: Option<Id>, adminEmail: Option<string>)
      requires !isAuthorized
      modifies this`user, this`isAuthorized, this`loading, this`redirectedHome
      modifies this`users, this`reports, this`rooms, this`messages
      ensures isAuthorized <==>
        authUser.Some? && ProfileOf(store.users, authUser.value).Some?
        && IsAuthorized(ProfileOf(store.users, authUser.value).value, adminEmail)
      ensures !isAuthorized ==>
        users == old(users) && reports == old(reports) && rooms == old(rooms) && messages == old(messages)
      ensures isAuthorized ==>
        && users == (if activeTab == UsersTab then UserList(store.users) else old(users))
        && reports == (if activeTab == ReportsTab then ReportList(store.reports) else old(reports))
        && rooms == (if activeTab == RoomsTab then RoomList(store.rooms, store.participants) else old(rooms))
        && messages ==
             (if activeTab == MessagesTab && selectedRoomId.Some? then MessageList(store.messages, selectedRoomId.value)
              else old(messages))
      ensures !loading
      ensures user ==
        if authUser.Some? && ProfileOf(store.users, authUser.value).Some? then ProfileOf(store.users, authUser.value)
        else old(user)
      ensures redirectedHome ==
        (old(redirectedHome) || authUser.None?
         || (ProfileOf(store.users, authUser.value).Some?
             && !IsAuthorized(ProfileOf(store.users, authUser.value).value, adminEmail)))
    {
      CheckAuthAndLoadData(store, authUser, adminEmail);
      if isAuthorized {
        LoadTabData(store);
      }
    }

    /** A tab button: switching to another tab of an authorised page loads that tab's list. */
    method SelectTab(store: Store, tab: Tab)
      modifies this`activeTab, this`users, this`reports, this`rooms, this`messages
      ensures activeTab == tab
      ensures tab == old(activeTab) || !isAuthorized ==>
        users == old(users) && reports == old(reports) && rooms == old(rooms) && messages == old(messages)
      ensures tab != old(activeTab) && isAuthorized ==>
        && users == (if tab == UsersTab then UserList(store.users) else old(users))
        && reports == (if tab == ReportsTab then ReportList(store.reports) else old(reports))
        && rooms == (if tab == RoomsTab then RoomList(store.rooms, store.participants) else old(rooms))
        && messages ==
             (if tab == MessagesTab && selectedRoomId.Some? then MessageList(store.messages, selectedRoomId.value)
              else old(messages))
    {
      if tab != activeTab {
        activeTab := tab;
        if isAuthorized {
          LoadTabData(store);
        }
      }
    }

    /** A room card's history button: select the room and switch to the messages tab, which loads its messages. */
    method ViewRoomMessages(store: Store, roomId: Id)
      requires activeTab == RoomsTab
      modifies this`selectedRoomId, this`activeTab, this`messages
      ensures selectedRoomId == Some(roomId) && activeTab == MessagesTab
      ensures messages == if isAuthorized then MessageList(store.messages, roomId) else old(messages)
    {
      selectedRoomId := Some(roomId);
      activeTab := MessagesTab;
      if isAuthorized {
        messages := MessageList(store.messages, roomId);
      }
    }

    /**
     * The room selector of the messages tab, as the page is written: record
     * the choice, then load messages with the room id the handler's render
     * saw, which is the previous choice.
     */
    method SelectRoom(store: Store, chosen: Option<Id>)
      modifies this`selectedRoomId, this`messages
      ensures selectedRoomId == chosen
      ensures messages == MessagesAfterSelectAsWritten(old(messages), old(selectedRoomId), chosen, store.messages)
    {
      var previous := selectedRoomId;
      selectedRoomId := chosen;
      if chosen.Some? && previous.Some? {
        messages := MessageList(store.messages, previous.value);
      }
    }

    /** The room selector as intended: record the choice and show the chosen room's messages. */
    method SelectRoomCorrected(store: Store, chosen: Option<Id>)
      modifies this`selectedRoomId, this`messages
      ensures selectedRoomId == chosen
      ensures messages == MessagesAfterSelect(old(messages), chosen, store.messages)
    {
      selectedRoomId := chosen;
      if chosen.Some? {
        messages := MessageList(store.messages, chosen.value);
      }
    }

    /** `handleUserStatusChange`: update the status of one user row and reload the users; a failed update changes nothing. */
    method HandleUserStatusChange(store: Store, userId: Id, status: UserStatus, fault: bool) returns (notice: Notice)
      requires store.Valid()
      modifies store`users, this`users
      ensures store.Valid()
      ensures notice == if fault then ErrorNotice(UserStatusErrorMessage) else SuccessNotice(UserStatusChangedMessage(status))
      ensures !fault ==> (notice.text == UserStatusChangedMessage(Suspended) <==> status == Suspended)
      ensures store.users == if fault then old(store.users) else WithUserStatus(old(store.users), userId, status)
      ensures users == if fault then old(users) else UserList(store.users)
    {
      var error := store.UpdateUserStatus(userId, status, fault);
      if error.Some? {
        return ErrorNotice(UserStatusErrorMessage);
      }
      users := UserList(store.users);
      notice := SuccessNotice(UserStatusChangedMessage(status));
      assert |UserStatusChangedMessage(Suspended)| != |UserStatusChangedMessage(Active)|;
    }

    /** The user row's toggle (and the profile dialog's button): ask for the other status. */
    method ToggleUserStatus(store: Store, target: User, fault: bool) returns (notice: Notice)
      requires store.Valid()
      modifies store`users, this`users
      ensures store.Valid()
      ensures store.users == if fault then old(store.users) else WithUserStatus(old(store.users), target.id, ToggledStatus(target.status))
      ensures users == if fault then old(users) else UserList(store.users)
      ensures notice == if fault then ErrorNotice(UserStatusErrorMessage) else SuccessNotice(UserStatusChangedMessage(ToggledStatus(target.status)))
    {
      notice := HandleUserStatusChange(store, target.id, ToggledStatus(target.status), fault);
    }

    /** `handleReportStatusChange`: update the status of one report row and reload the reports; a failed update changes nothing. */
    method HandleReportStatusChange(store: Store, reportId: Id, status: ReportStatus, fault: bool) returns (notice: Notice)
      requires status != Pending
      requires store.Valid()
      modifies store`reports, this`reports
      ensures store.Valid()
      ensures notice == if fault then ErrorNotice(ReportStatusErrorMessage) else SuccessNotice(ReportStatusChangedMessage)
      ensures store.reports == if fault then old(store.reports) else WithReportStatus(old(store.reports), reportId, status)
      ensures !fault ==> |store.reports| == |old(store.reports)| && forall k :: 0 <= k < |store.reports| ==>
        store.reports[k].status == if old(store.reports)[k].id == reportId then status else old(store.reports)[k].status
      ensures reports == if fault then old(reports) else ReportList(store.reports)
    {
      var error := store.UpdateReportStatus(reportId, status, fault);
      if error.Some? {
        return ErrorNotice(ReportStatusErrorMessage);
      }
      reports := ReportList(store.reports);
      notice := SuccessNotice(ReportStatusChangedMessage);
    }

    /** A report card's button: it offers only the next stage, so a report only ever moves one stage forward. */
    method ClickReportAction(store: Store, report: Report, action: ReportStatus, fault: bool) returns (notice: Notice)
      requires action in ReportActions(report.status)
      requires store.Valid()
      modifies store`reports, this`reports
      ensures store.Valid()
      ensures ReviewStage(action) == ReviewStage(report.status) + 1
      ensures store.reports == if fault then old(store.reports) else WithReportStatus(old(store.reports), report.id, action)
      ensures reports == if fault then old(reports) else ReportList(store.reports)
    {
      ReportActionsAdvanceOneStage(report.status, action);
      notice := HandleReportStatusChange(store, report.id, action, fault);
    }
  }
}
