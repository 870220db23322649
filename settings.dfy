/**
 * The settings page's nickname rules: the 14-day cooldown and the date of the
 * next allowed change, the edit button they gate, the nickname input, and the
 * ordered checks of a save before the profile row is updated. The clock is a
 * parameter.
 */
module Settings {
  import opened Wrappers
  import opened Types
  import opened Seqs
  import opened Text
  import opened Store

  const CooldownDays: int := 14
  const CooldownMs: int := CooldownDays * DayMs

  /** The nickname input's `maxLength`. */
  const NicknameInputMax: nat := 10

  const NicknameLengthMessage: string := "닉네임은 2-10자로 입력해주세요"
  const NicknameTakenMessage: string := "이미 사용 중인 닉네임입니다"

  /** `canChangeNickname`: never changed, or last changed at least 14 days before `now`. */
  predicate CanChangeNickname(lastUpdated: Option<Instant>, now: Instant) {
    lastUpdated.None? || lastUpdated.value <= now - CooldownMs
  }

  /** `getNextChangeDate`: none when never changed, else 14 days after the last change. */
  function NextChangeDate(lastUpdated: Option<Instant>): (r: Option<Instant>)
    ensures r.None? <==> lastUpdated.None?
  {
    if lastUpdated.None? then None else Some(lastUpdated.value + CooldownMs)
  }

  /** A change is allowed exactly when there is no next-change date or it has been reached. */
  lemma CanChangeIffNextDateReached(lastUpdated: Option<Instant>, now: Instant)
    ensures CanChangeNickname(lastUpdated, now) <==> NextChangeDate(lastUpdated).None? || NextChangeDate(lastUpdated).value <= now
  {
  }

  /** The boundary is inclusive: exactly 14 days after a change, the next one is allowed, a millisecond earlier it is not. */
  lemma CooldownBoundary(t: Instant)
    ensures CanChangeNickname(Some(t), t + CooldownMs)
    ensures !CanChangeNickname(Some(t), t + CooldownMs - 1)
  {
  }

  /** Once allowed, a change stays allowed as time goes on. */
  lemma CanChangeStaysAllowed(lastUpdated: Option<Instant>, now: Instant, later: Instant)
    requires now <= later && CanChangeNickname(lastUpdated, now)
    ensures CanChangeNickname(lastUpdated, later)
  {
  }

  /** `.eq('nickname', nickname).neq('id', id)` on `users`. */
  function HeldByOther(nickname: string, id: Id): User -> bool {
    (u: User) => u.nickname == nickname && u.id != id
  }

  /** The duplicate check of a save: exactly one other profile row has the nickname (`.single()`). */
  predicate NicknameHeldByOther(users: seq<User>, nickname: string, id: Id) {
    Single(Filter(users, HeldByOther(nickname, id))).Some?
  }

  /** What a save did. */
  datatype SaveOutcome = Ignored | BadLength | SameNickname | Taken | SaveFailed | Saved

  /** The length check of a save, on the input as typed (before trimming). */
  predicate LengthAccepted(input: string) {
    2 <= |input| <= 10
  }

  /** Which of the ordered checks of a save decides its outcome. */
  function SaveDecision(user: Option<User>, input: string, users: seq<User>, fault: bool): SaveOutcome {
    if user.None? || Trim(input) == "" then Ignored
    else if !LengthAccepted(input) then BadLength
    else if input == user.value.nickname then SameNickname
    else if NicknameHeldByOther(users, Trim(input), user.value.id) then Taken
    else if fault then SaveFailed
    else Saved
  }

  /**
   * A save is written exactly when there is a user, the input is not blank,
   * its length as typed is 2..10, it differs from the current nickname, no
   * other user holds its trimmed form, and the store accepts the write.
   */
  lemma SaveDecisionSpec(user: Option<User>, input: string, users: seq<User>, fault: bool)
    ensures var d := SaveDecision(user, input, users, fault);
      && (d == Saved <==>
            user.Some? && Trim(input) != "" && LengthAccepted(input) && input != user.value.nickname
            && !NicknameHeldByOther(users, Trim(input), user.value.id) && !fault)
      && (d == Taken <==>
            user.Some? && Trim(input) != "" && LengthAccepted(input) && input != user.value.nickname
            && NicknameHeldByOther(users, Trim(input), user.value.id))
      && (d == BadLength <==> user.Some? && Trim(input) != "" && !LengthAccepted(input))
      && (d == Ignored <==> user.None? || Trim(input) == "")
  {
  }

  class SettingsPage {
    var user: Option<User>
    var isEditing: bool
    var newNickname: string
    var nicknameError: string

    /** The page once the profile has loaded: the input starts from the current nickname. */
    constructor (user: Option<User>)
      ensures this.user == user && !isEditing && nicknameError == ""
      ensures newNickname == if user.Some? then user.value.nickname else ""
    {
      this.user := user;
      isEditing := false;
      newNickname := if user.Some? then user.value.nickname else "";
      nicknameError := "";
    }

    /** The edit button is enabled under the cooldown rule. */
    predicate EditEnabled(now: Instant)
      reads this
      requires user.Some?
    {
      CanChangeNickname(user.value.nicknameUpdatedAt, now)
    }

    /** The edit button: shown while not editing; it opens the editor only when enabled. */
    method ClickEdit(now: Instant)
      requires user.Some? && !isEditing
      modifies this`isEditing
      ensures isEditing <==> CanChangeNickname(user.value.nicknameUpdatedAt, now)
    {
      if EditEnabled(now) {
        isEditing := true;
      }
    }

    /** Typing in the nickname input: the input keeps at most 10 characters, and the error is cleared. */
    method TypeNickname(value: string)
      modifies this`newNickname, this`nicknameError
      ensures newNickname == if |value| <= NicknameInputMax then value else value[..NicknameInputMax]
      ensures |newNickname| <= NicknameInputMax
      ensures nicknameError == ""
    {
      newNickname := if |value| <= NicknameInputMax then value else value[..NicknameInputMax];
      nicknameError := "";
    }

    /** Cancel: leave the editor and put the current nickname back in the input. */
    method Cancel()
      requires user.Some?
      modifies this`isEditing, this`newNickname, this`nicknameError
      ensures !isEditing && newNickname == user.value.nickname && nicknameError == ""
    {
      isEditing := false;
      newNickname := user.value.nickname;
      nicknameError := "";
    }

    /**
     * The save button is disabled while the input is blank after trimming; a
     * disabled button stands for a save that would do nothing, and with a
     * user loaded an enabled one for a save that goes past that first check.
     */
    predicate SaveDisabled()
      reads this
      ensures SaveDisabled() ==>
        forall users: seq<User>, fault: bool :: SaveDecision(user, newNickname, users, fault) == Ignored
      ensures user.Some? && !SaveDisabled() ==>
        forall users: seq<User>, fault: bool :: SaveDecision(user, newNickname, users, fault) != Ignored
    {
      Trim(newNickname) == ""
    }

    /**
     * `handleNicknameChange`. In order: a missing user or a blank input does
     * nothing; a length outside 2..10 of the input as typed is an error; an
     * input equal to the current nickname just leaves the editor; a trimmed
     * input another user holds is an error; otherwise the profile row gets the
     * trimmed nickname stamped with `now`. The cooldown is not checked here:
     * only the edit button enforces it.
     */
    method HandleNicknameChange(store: Store, now: Instant, fault: bool) returns (outcome: SaveOutcome)
      requires store.Valid()
      modifies this`user, this`isEditing, this`nicknameError, store`users
      ensures store.Valid()
      ensures outcome == SaveDecision(old(user), newNickname, old(store.users), fault)
      ensures outcome != Saved ==> store.users == old(store.users) && user == old(user)
      ensures outcome == Saved ==>
        && store.users == WithNickname(old(store.users), old(user).value.id, Trim(newNickname), now)
        && user == Some(old(user).value.(nickname := Trim(newNickname), nicknameUpdatedAt := Some(now)))
      ensures isEditing == if outcome == SameNickname || outcome == Saved then false else old(isEditing)
      ensures nicknameError ==
        match outcome
        case Ignored => old(nicknameError)
        case BadLength => NicknameLengthMessage
        case SameNickname => old(nicknameError)
        case Taken => NicknameTakenMessage
        case _ => ""
    {
      var input := newNickname;
      var trimmed := Trim(input);
      if user.None? || trimmed == "" {
        return Ignored;
      }
      var current := user.value;
      if |input| < 2 || |input| > 10 {
        nicknameError := NicknameLengthMessage;
        return BadLength;
      }
      if input == current.nickname {
        isEditing := false;
        return SameNickname;
      }
      nicknameError := "";
      var existingUser := Single(Filter(store.users, HeldByOther(trimmed, current.id)));
      if existingUser.Some? {
        nicknameError := NicknameTakenMessage;
        return Taken;
      }
      outcome := WriteNickname(store, current, trimmed, now, fault);
    }

    /** The last step of a save: the update of the profile row and, when the store accepts it, of the page's copy. */
    method WriteNickname(store: Store, current: User, trimmed: string, now: Instant, fault: bool) returns (outcome: SaveOutcome)
      requires store.Valid()
      modifies this`user, this`isEditing, store`users
      ensures store.Valid()
      ensures outcome == if fault then SaveFailed else Saved
      ensures fault ==> store.users == old(store.users) && user == old(user) && isEditing == old(isEditing)
      ensures !fault ==>
        && store.users == WithNickname(old(store.users), current.id, trimmed, now)
        && user == Some(current.(nickname := trimmed, nicknameUpdatedAt := Some(now)))
        && !isEditing
    {
      var error := store.UpdateNickname(current.id, trimmed, now, fault);
      if error.Some? {
        return SaveFailed;
      }
      user := Some(current.(nickname := trimmed, nicknameUpdatedAt := Some(now)));
      isEditing := false;
      outcome := Saved;
    }
  }

  /**
   * A save writes only the nickname and its timestamp, and only on the row of
   * the user: name, email, phone, department, status and role stay as they were.
   */
  lemma SaveTouchesOnlyNickname(users: seq<User>, id: Id, nickname: string, at: Instant)
    ensures var r := WithNickname(users, id, nickname, at);
      && |r| == |users|
      && (forall k :: 0 <= k < |users| ==>
            && r[k].id == users[k].id && r[k].name == users[k].name && r[k].email == users[k].email
            && r[k].phone == users[k].phone && r[k].department == users[k].department
            && r[k].status == users[k].status && r[k].isAdmin == users[k].isAdmin)
      && (forall k :: 0 <= k < |users| && users[k].id == id ==>
            r[k].nickname == nickname && r[k].nicknameUpdatedAt == Some(at))
      && (forall k :: 0 <= k < |users| && users[k].id != id ==> r[k] == users[k])
  {
  }

  /**
   * The length is checked before trimming, so a saved nickname has at most 10
   * characters but may have a single one: " a" passes the check and is saved
   * as "a".
   */
  lemma SavedNicknameLength(input: string)
    requires Trim(input) != "" && LengthAccepted(input)
    ensures 1 <= |Trim(input)| <= 10
  {
    TrimSpec(input);
  }

  lemma PaddedSingleCharacterPasses()
    ensures LengthAccepted(" a") && Trim(" a") == "a"
  {
    assert IsJsWhitespace(' ');
    assert !IsJsWhitespace('a');
    assert TrimStart(" a") == "a" by {
      assert " a"[1..] == "a";
      assert TrimStart("a") == "a";
    }
    assert TrimEnd("a") == "a";
  }
}
