/**
 * The database record types and constant tables of the application: users,
 * chat rooms, room participants, messages, reports, favorites, the four
 * campus locations with their display names, and the department list.
 */
module Types {
  import opened Wrappers

  /** A row identifier. */
  type Id = nat

  /** A point in time, in milliseconds since the epoch (`created_at`, `nickname_updated_at`, the clock). */
  type Instant = int

  /** A calendar day, counted in whole days from a fixed epoch (`departure_date`, the date selector). */
  type Day = int

  const DayMs: int := 86_400_000

  datatype UserStatus = Active | Suspended

  datatype RoomStatus = RoomActive | RoomClosed

  datatype ReportStatus = Pending | Reviewed | Resolved

  /** The four fixed campus locations of `LocationType`. */
  datatype Location = GachonStationExit1 | GachonMainGate | GraduateSchoolOfEducation | AIEngineeringHall

  datatype User = User(
    id: Id,
    email: string,
    name: string,
    phone: string,
    nickname: string,
    nicknameUpdatedAt: Option<Instant>,
    department: string,
    status: UserStatus,
    isAdmin: bool,
    createdAt: Instant,
    updatedAt: Instant)

  datatype RoomParticipant = RoomParticipant(
    id: Id,
    roomId: Id,
    userId: Id,
    confirmed: bool,
    joinedAt: Instant)

  /**
   * A chat room. `participants` is present only when a query joins the
   * room's participant rows onto it, as the room list does.
   */
  datatype ChatRoom = ChatRoom(
    id: Id,
    title: string,
    fromLocation: Location,
    toLocation: Location,
    departureDate: Day,
    departureTime: string,
    maxParticipants: int,
    createdBy: Id,
    status: RoomStatus,
    createdAt: Instant,
    participants: Option<seq<RoomParticipant>>)

  datatype Message = Message(
    id: Id,
    roomId: Id,
    userId: Id,
    content: string,
    createdAt: Instant)

  datatype Report = Report(
    id: Id,
    roomId: Option<Id>,
    reporterId: Id,
    reportedId: Id,
    reason: string,
    status: ReportStatus,
    createdAt: Instant)

  datatype Favorite = Favorite(
    id: Id,
    userId: Id,
    fromLocation: Location,
    toLocation: Location,
    createdAt: Instant)

  /** Every location, in declaration order. */
  const AllLocations: seq<Location> :=
    [GachonStationExit1, GachonMainGate, GraduateSchoolOfEducation, AIEngineeringHall]

  /** The value a location has in the database and in URLs. */
  function LocationKey(l: Location): string {
    match l
    case GachonStationExit1 => "가천대역_1번출구"
    case GachonMainGate => "가천대학교_정문"
    case GraduateSchoolOfEducation => "교육대학원"
    case AIEngineeringHall => "AI공학관"
  }

  /** `LOCATIONS[l]`: the name shown to users. */
  function LocationName(l: Location): string {
    match l
    case GachonStationExit1 => "가천대역 1번출구"
    case GachonMainGate => "가천대학교 정문"
    case GraduateSchoolOfEducation => "교육대학원"
    case AIEngineeringHall => "AI공학관"
  }

  /** Reads a location back from its database value; any other string is no location. */
  function ParseLocationKey(s: string): (r: Option<Location>)
    ensures r.Some? ==> LocationKey(r.value) == s
  {
    if s == LocationKey(GachonStationExit1) then Some(GachonStationExit1)
    else if s == LocationKey(GachonMainGate) then Some(GachonMainGate)
    else if s == LocationKey(GraduateSchoolOfEducation) then Some(GraduateSchoolOfEducation)
    else if s == LocationKey(AIEngineeringHall) then Some(AIEngineeringHall)
    else None
  }

  /** Reading a location's database value gives the location back. */
  lemma ParseLocationKeyRoundTrip(l: Location)
    ensures ParseLocationKey(LocationKey(l)) == Some(l)
  {
    assert LocationKey(GachonStationExit1)[3] == '역';
    assert LocationKey(GachonMainGate)[2] == '대';
    assert |LocationKey(GraduateSchoolOfEducation)| == 5;
    assert |LocationKey(AIEngineeringHall)| == 5;
    assert LocationKey(GraduateSchoolOfEducation)[0] != LocationKey(AIEngineeringHall)[0];
  }

  /** `LocationType` has exactly four values, all listed in `AllLocations` once. */
  lemma AllLocationsComplete(l: Location)
    ensures l in AllLocations
    ensures |AllLocations| == 4
    ensures forall i, j :: 0 <= i < j < |AllLocations| ==> AllLocations[i] != AllLocations[j]
  {
  }

  /** `LOCATIONS` gives the four locations four different display names. */
  lemma LocationNameInjective(a: Location, b: Location)
    ensures LocationName(a) == LocationName(b) ==> a == b
  {
    assert LocationName(GachonStationExit1)[4] == ' ';
    assert LocationName(GachonMainGate)[5] == ' ';
    assert |LocationName(GachonStationExit1)| == 9;
    assert |LocationName(GachonMainGate)| == 8;
    assert |LocationName(GraduateSchoolOfEducation)| == 5;
    assert |LocationName(AIEngineeringHall)| == 5;
    assert LocationName(GraduateSchoolOfEducation)[0] != LocationName(AIEngineeringHall)[0];
  }

  /** The only e-mail domain the forms accept. */
  const GachonDomain: string := "@gachon.ac.kr"

  /** An address in the university's domain: any local part followed by the domain. */
  ghost predicate IsGachonAddress(email: string) {
    exists local :: email == local + GachonDomain
  }

  /** `DEPARTMENTS`: the options of the department step of the signup form. */
  const Departments: seq<string> := [
    "AI·소프트웨어학부", "컴퓨터공학과", "전자공학과", "기계공학과", "건축공학과",
    "화공생명공학과", "환경공학과", "토목환경공학과", "산업경영공학과", "경영학과",
    "국제통상학과", "관광경영학과", "경제학과", "사회복지학과", "행정학과",
    "법학과", "영어영문학과", "일본학과", "중국학과", "한국어문학과",
    "사학과", "철학과", "의학과", "간호학과", "약학과",
    "식품영양학과", "운동재활복지학과", "기타"
  ]
}
