/** The user routes: creation with the phone-number check and the column
    defaults, the overwrite of the editable columns, deletion guarded by the
    response history, and the weekly sums of the dashboard. */
module Users {
  import opened Base
  import opened Database

  // ---- the phone-number pattern ----

  predicate IsDigit(c: char) {
    '0' <= c <= '9'
  }

  /** Every character is an ASCII digit (`\d` without the `u` flag). */
  predicate AllDigits(s: string) {
    |s| == 0 || (IsDigit(s[0]) && AllDigits(s[1..]))
  }

  lemma {:induction false} AllDigitsAt(s: string)
    ensures AllDigits(s) <==> forall i :: 0 <= i < |s| ==> IsDigit(s[i])
  {
    if |s| > 0 {
      AllDigitsAt(s[1..]);
      assert forall i :: 1 <= i < |s| ==> s[i] == s[1..][i - 1];
    }
  }

  /** `/^\+?[1-9]\d{1,14}$/`: an optional leading plus, then two to fifteen
      ASCII digits of which the first is not zero, and nothing else. */
  predicate IsPhone(p: string) {
    var digits := if |p| > 0 && p[0] == '+' then p[1..] else p;
    2 <= |digits| <= 15 && digits[0] != '0' && AllDigits(digits)
  }

  /** The pattern run as the scanner a regex engine performs: the optional
      plus, one digit from 1 to 9, then a run of digits whose length is
      checked at the end of the input. */
  method MatchPhone(p: string) returns (ok: bool)
    ensures ok <==> IsPhone(p)
  {
    var start := if |p| > 0 && p[0] == '+' then 1 else 0;
    ghost var digits := p[start..];
    assert digits == if |p| > 0 && p[0] == '+' then p[1..] else p;
    AllDigitsAt(digits);
    if start == |p| || !('1' <= p[start] <= '9') {
      assert start < |p| ==> digits[0] == p[start];
      return false;
    }
    var j := start + 1;
    while j < |p|
      invariant start + 1 <= j <= |p|
      invariant forall k :: start <= k < j ==> IsDigit(p[k])
    {
      if !IsDigit(p[j]) {
        assert !IsDigit(digits[j - start]);
        return false;
      }
      j := j + 1;
    }
    ok := 2 <= |p| - start <= 15;
    assert forall i :: 0 <= i < |digits| ==> digits[i] == p[start + i];
  }

  /** Examples of the pattern: the plus is optional and two digits suffice. */
  lemma PhoneAccepted()
    ensures IsPhone("+14155550123") && IsPhone("14155550123") && IsPhone("12")
  {
    assert AllDigits("14155550123");
    assert "+14155550123"[1..] == "14155550123";
  }

  /** A leading zero, a lone digit, sixteen digits, a separator or a second
      plus are refused. */
  lemma PhoneRefused()
    ensures !IsPhone("") && !IsPhone("+") && !IsPhone("7") && !IsPhone("+0123456")
    ensures !IsPhone("1234567890123456") && !IsPhone("+1 415") && !IsPhone("++12")
  {
    assert "+1 415"[1..] == "1 415" && !AllDigits(" 415");
    assert "++12"[1..] == "+12";
  }

  // ---- POST / ----

  datatype UserOutcome =
    | UserCreated(user: User)     // 201
    | UserUpdated(user: User)     // 200
    | UserDeleted                 // 200
    | UserBadRequest(error: string)  // 400
    | UserNotFound                // 404
    | PhoneTaken                  // 409 'Phone number already exists'

  const DefaultTimezone: string := "America/New_York"

  /** `POST /`: the phone number must be present and match the pattern; the
      insert gives the name `name || null` and the timezone
      `timezone || 'America/New_York'`, and a UNIQUE failure becomes 409. */
  function Create(s: Store, phone: Option<string>, name: Option<string>, timezone: Option<string>): (r: (Store, UserOutcome))
    ensures r.1.UserCreated? || r.1.UserBadRequest? || r.1.PhoneTaken?
    ensures r.1.UserBadRequest? <==> !PresentText(phone) || !IsPhone(phone.value)
    ensures !PresentText(phone) ==> r.1 == UserBadRequest("Phone number is required")
    ensures PresentText(phone) && !IsPhone(phone.value) ==> r.1 == UserBadRequest("Invalid phone number format")
    ensures r.1.PhoneTaken? <==> PresentText(phone) && IsPhone(phone.value)
                                 && exists u :: u in s.users && u.phone == phone.value
    ensures !r.1.UserCreated? ==> r.0 == s
    ensures r.1.UserCreated? ==>
              && r.1.user == User(s.nextUserId, phone.value, OrNull(name), Some(OrDefault(timezone, DefaultTimezone)), Some(1))
              && r.0 == s.(users := s.users + [r.1.user], nextUserId := s.nextUserId + 1)
  {
    if !PresentText(phone) then (s, UserBadRequest("Phone number is required"))
    else if !IsPhone(phone.value) then (s, UserBadRequest("Invalid phone number format"))
    else
      match InsertUser(s, phone.value, OrNull(name), OrDefault(timezone, DefaultTimezone))
      case Err(_) => (s, PhoneTaken)
      case Ok((t, id)) => (t, UserCreated(t.users[|t.users| - 1]))
  }

  /** Creating a user keeps the schema's guarantees, phone uniqueness among them. */
  lemma CreateValid(s: Store, phone: Option<string>, name: Option<string>, timezone: Option<string>)
    requires Valid(s)
    ensures Valid(Create(s, phone, name, timezone).0)
  {
    if Create(s, phone, name, timezone).1.UserCreated? {
      InsertUserValid(s, phone.value, OrNull(name), OrDefault(timezone, DefaultTimezone));
    }
  }

  /** A created user is found again by its phone number, so a second create
      with the same number is a 409. */
  lemma CreateTwiceConflicts(s: Store, phone: Option<string>, name: Option<string>, timezone: Option<string>,
                             name2: Option<string>, timezone2: Option<string>)
    requires Create(s, phone, name, timezone).1.UserCreated?
    ensures Create(Create(s, phone, name, timezone).0, phone, name2, timezone2).1 == PhoneTaken
  {
    var t := Create(s, phone, name, timezone);
    assert t.1.user in t.0.users;
  }

  // ---- PUT /:id ----

  /** The row with the given id takes the body's name, timezone and is_active. */
  function SetProfile(users: seq<User>, id: int, name: Option<string>, timezone: Option<string>,
                      isActive: Option<int>): (r: seq<User>)
    ensures |r| == |users|
    ensures forall i :: 0 <= i < |r| ==> r[i].id == users[i].id && r[i].phone == users[i].phone
    ensures forall i :: 0 <= i < |r| && users[i].id != id ==> r[i] == users[i]
    ensures forall i :: 0 <= i < |r| && users[i].id == id ==>
              r[i].name == name && r[i].timezone == timezone && r[i].isActive == isActive
  {
    if |users| == 0 then []
    else
      var u := users[0];
      [if u.id == id then u.(name := name, timezone := timezone, isActive := isActive) else u]
      + SetProfile(users[1..], id, name, timezone, isActive)
  }

  /** `PUT /:id`: the three editable columns are overwritten with whatever
      the body holds, absent fields becoming NULL and an empty name staying
      empty; no row changed means 404. The answer is the row read back. */
  function Update(s: Store, id: int, name: Option<string>, timezone: Option<string>, isActive: Option<int>): (r: (Store, UserOutcome))
    ensures r.1.UserUpdated? || r.1.UserNotFound?
    ensures r.1.UserNotFound? <==> FindUser(s.users, id).None?
    ensures r.1.UserNotFound? ==> r.0 == s
    ensures r.1.UserUpdated? ==>
              && r.0 == s.(users := SetProfile(s.users, id, name, timezone, isActive))
              && r.1.user == FindUser(s.users, id).value.(name := name, timezone := timezone, isActive := isActive)
              && r.1.user in r.0.users
  {
    match FindUser(s.users, id)
    case None => (s, UserNotFound)
    case Some(u) =>
      var users := SetProfile(s.users, id, name, timezone, isActive);
      ghost var i :| 0 <= i < |s.users| && s.users[i] == u;
      assert users[i] == u.(name := name, timezone := timezone, isActive := isActive);
      (s.(users := users), UserUpdated(u.(name := name, timezone := timezone, isActive := isActive)))
  }

  /** An update never touches a phone number or an id, so it keeps the
      schema's guarantees. */
  lemma UpdateValid(s: Store, id: int, name: Option<string>, timezone: Option<string>, isActive: Option<int>)
    requires Valid(s)
    ensures Valid(Update(s, id, name, timezone, isActive).0)
  {
  }

  // ---- DELETE /:id ----

  /** The users other than the one with this id. */
  function RemoveUser(users: seq<User>, id: int): (r: seq<User>)
    ensures forall u :: u in r <==> u in users && u.id != id
  {
    Filter(users, (u: User) => u.id != id)
  }

  /** `DELETE /:id`: refused while any response names the user; otherwise
      the row is deleted, and no row deleted means 404. */
  function Delete(s: Store, id: int): (r: (Store, UserOutcome))
    ensures r.1.UserDeleted? || r.1.UserBadRequest? || r.1.UserNotFound?
    ensures r.1.UserBadRequest? <==> exists x :: x in s.responses && x.userId == id
    ensures r.1.UserBadRequest? ==> r.1.error == "Cannot delete user with existing responses. Deactivate instead."
    ensures r.1.UserNotFound? <==> !r.1.UserBadRequest? && FindUser(s.users, id).None?
    ensures !r.1.UserDeleted? ==> r.0 == s
    ensures r.1.UserDeleted? ==> r.0 == s.(users := r.0.users)
                                 && forall u :: u in r.0.users <==> u in s.users && u.id != id
  {
    CountPositive(s.responses, (x: Response) => x.userId == id);
    if Count(s.responses, (x: Response) => x.userId == id) > 0 then
      (s, UserBadRequest("Cannot delete user with existing responses. Deactivate instead."))
    else if FindUser(s.users, id).None? then (s, UserNotFound)
    else (s.(users := RemoveUser(s.users, id)), UserDeleted)
  }

  /** A deletion keeps ids and phone numbers distinct, so the store stays valid. */
  lemma DeleteValid(s: Store, id: int)
    requires Valid(s)
    ensures Valid(Delete(s, id).0)
  {
    if Delete(s, id).1.UserDeleted? {
      var p := (u: User) => u.id != id;
      FilterDistinct(s.users, (u: User) => u.id, p);
      FilterDistinct(s.users, (u: User) => u.phone, p);
      var r := Filter(s.users, p);
      forall i | 0 <= i < |r|
        ensures r[i].id < s.nextUserId
      {
        assert r[i] in s.users;
      }
    }
  }

  // ---- GET /:id/dashboard ----

  datatype Dashboard = DashboardNotFound | DashboardFor(user: User, weekly: WeeklyTotals)

  /** The week's sums of one user over every campaign. */
  function UserWeek(s: Store, userId: int, today: int): WeeklyTotals {
    WeeklySums(WindowRows(s.responses, userId, None, WeekStart(today)))
  }

  /** `GET /:id/dashboard`, reduced to the user and the weekly sums: 404 for
      an unknown id. */
  function UserDashboard(s: Store, userId: int, today: int): (d: Dashboard)
    ensures d.DashboardNotFound? <==> FindUser(s.users, userId).None?
    ensures d.DashboardFor? ==> d.user.id == userId && d.user in s.users
    ensures d.DashboardFor? ==> d.weekly == UserWeek(s, userId, today)
  {
    match FindUser(s.users, userId)
    case None => DashboardNotFound
    case Some(u) => DashboardFor(u, UserWeek(s, userId, today))
  }

  /** Every stored row of a known user dated in the window is reflected in
      the dashboard's weekly totals, whatever its campaign. */
  lemma DashboardIncludes(s: Store, row: Response, today: int)
    requires Valid(s)
    requires row in s.responses && row.date >= WeekStart(today)
    requires FindUser(s.users, row.userId).Some?
    ensures var d := UserDashboard(s, row.userId, today);
            && d.DashboardFor?
            && d.weekly.joy.Some? && d.weekly.joy.value >= row.joy
            && d.weekly.achievement.Some? && d.weekly.achievement.value >= row.achievement
            && d.weekly.meaningfulness.Some? && d.weekly.meaningfulness.value >= row.meaningfulness
  {
    UserWeekIncludes(s, row, today);
  }

  /** Every stored row of the user dated in the window counts towards the
      dashboard's sums, whatever its campaign. */
  lemma UserWeekIncludes(s: Store, row: Response, today: int)
    requires Valid(s)
    requires row in s.responses && row.date >= WeekStart(today)
    ensures var week := UserWeek(s, row.userId, today);
            && week.joy.Some? && week.joy.value >= row.joy
            && week.achievement.Some? && week.achievement.value >= row.achievement
            && week.meaningfulness.Some? && week.meaningfulness.value >= row.meaningfulness
  {
    StoredScoresChecked(s);
    var rows := WindowRows(s.responses, row.userId, None, WeekStart(today));
    assert InWindow(row, row.userId, None, WeekStart(today));
    WeeklySumsAtLeast(rows, row);
  }

  /** The dashboard's sums over all campaigns are never below the sums of one
      campaign that the submission feedback reports. */
  lemma UserWeekCoversCampaign(s: Store, userId: int, campaignId: int, today: int)
    requires Valid(s)
    ensures var all := UserWeek(s, userId, today);
            var one := CampaignWeek(s, userId, campaignId, today);
            && (one.joy.Some? ==> all.joy.Some? && all.joy.value >= one.joy.value)
            && (one.achievement.Some? ==> all.achievement.Some? && all.achievement.value >= one.achievement.value)
            && (one.meaningfulness.Some? ==> all.meaningfulness.Some? && all.meaningfulness.value >= one.meaningfulness.value)
  {
    StoredScoresChecked(s);
    var since := WeekStart(today);
    var p := (r: Response) => InWindow(r, userId, None, since);
    var q := (r: Response) => InWindow(r, userId, Some(campaignId), since);
    var one := Filter(s.responses, q);
    if |one| > 0 {
      assert one[0] in one;
      assert one[0] in Filter(s.responses, p);
    }
    SumFilterMono(s.responses, p, q, (r: Response) => r.joy);
    SumFilterMono(s.responses, p, q, (r: Response) => r.achievement);
    SumFilterMono(s.responses, p, q, (r: Response) => r.meaningfulness);
  }
}
