/** The SQLite store behind every handler, reduced to its four tables and the
    constraints the schema declares: the UNIQUE phone number of a user, the
    score CHECKs and the UNIQUE (user, campaign, day) triple of a response,
    the NOT NULL columns, the column defaults and AUTOINCREMENT ids.
    Dates are day numbers (ISO `YYYY-MM-DD` text orders the same way);
    timestamps are plain integers. Foreign keys are declared but SQLite does
    not enforce them unless asked to, and nothing here asks, so a response or
    a log row may name a user or campaign that does not exist. */
module Database {
  import opened Base

  datatype User = User(id: int, phone: string, name: Option<string>, timezone: Option<string>,
                       isActive: Option<int>)

  datatype Campaign = Campaign(id: int, name: string, startDate: int, endDate: int, isActive: Option<int>)

  datatype Response = Response(id: int, userId: int, campaignId: int, date: int,
                               joy: int, achievement: int, meaningfulness: int, freeText: Option<string>)

  /** `message_type` of an sms_logs row. */
  datatype MessageKind = SurveyMessage | FeedbackMessage | ReplyMessage

  /** An sms_logs row; `deliveredAt` is set only by a delivery callback. */
  datatype LogRow = LogRow(id: int, userId: int, campaignId: int, kind: MessageKind, content: string,
                           sid: Option<string>, status: Option<string>, deliveredAt: Option<int>,
                           error: Option<string>)

  /** The four tables and the next AUTOINCREMENT value of each. */
  datatype Store = Store(users: seq<User>, campaigns: seq<Campaign>, responses: seq<Response>,
                         logs: seq<LogRow>, nextUserId: int, nextCampaignId: int,
                         nextResponseId: int, nextLogId: int)

  /** Why SQLite refused a statement. */
  datatype DbError = UniqueViolation | CheckViolation | NotNullViolation

  /** `is_active = 1`: only the stored value 1 (or `true`) selects a row. */
  predicate Active(flag: Option<int>) {
    flag == Some(1)
  }

  // ---- the schema ----

  /** `createTables` on a file that may already hold the tables: every
      statement is `CREATE ... IF NOT EXISTS`, so existing tables and their
      rows are kept and missing ones are created empty. */
  function CreateTables(db: Option<Store>): (r: Option<Store>)
    ensures r.Some?
    ensures db.Some? ==> r == db
  {
    if db.Some? then db else Some(Store([], [], [], [], 1, 1, 1, 1))
  }

  /** Creating the tables twice is the same as creating them once. */
  lemma CreateTablesIdempotent(db: Option<Store>)
    ensures CreateTables(CreateTables(db)) == CreateTables(db)
    ensures Valid(CreateTables(db).value) <==> (db.None? || Valid(db.value))
  {
  }

  /** The score CHECK constraints of survey_responses. */
  predicate ScoresChecked(r: Response) {
    InScoreRange(r.joy) && InScoreRange(r.achievement) && InScoreRange(r.meaningfulness)
  }

  predicate UsersValid(users: seq<User>, next: int) {
    && (forall i :: 0 <= i < |users| ==> users[i].id < next)
    && (forall i, j :: 0 <= i < j < |users| ==> users[i].id != users[j].id)
    && (forall i, j :: 0 <= i < j < |users| ==> users[i].phone != users[j].phone)
  }

  predicate CampaignsValid(campaigns: seq<Campaign>, next: int) {
    && (forall i :: 0 <= i < |campaigns| ==> campaigns[i].id < next)
    && (forall i, j :: 0 <= i < j < |campaigns| ==> campaigns[i].id != campaigns[j].id)
  }

  /** Two responses share the UNIQUE key (user, campaign, day). */
  predicate SameDay(a: Response, b: Response) {
    a.userId == b.userId && a.campaignId == b.campaignId && a.date == b.date
  }

  predicate ResponsesValid(responses: seq<Response>, next: int) {
    && (forall i :: 0 <= i < |responses| ==> responses[i].id < next && ScoresChecked(responses[i]))
    && (forall i, j :: 0 <= i < j < |responses| ==> responses[i].id != responses[j].id)
    && (forall i, j :: 0 <= i < j < |responses| ==> !SameDay(responses[i], responses[j]))
  }

  predicate LogsValid(logs: seq<LogRow>, next: int) {
    && (forall i :: 0 <= i < |logs| ==> logs[i].id < next)
    && (forall i, j :: 0 <= i < j < |logs| ==> logs[i].id != logs[j].id)
  }

  /** Everything the schema guarantees of the stored rows. */
  predicate Valid(s: Store) {
    && UsersValid(s.users, s.nextUserId)
    && CampaignsValid(s.campaigns, s.nextCampaignId)
    && ResponsesValid(s.responses, s.nextResponseId)
    && LogsValid(s.logs, s.nextLogId)
  }

  /** Every stored response satisfies the score CHECKs. */
  lemma StoredScoresChecked(s: Store)
    requires Valid(s)
    ensures forall x :: x in s.responses ==> ScoresChecked(x)
  {
    forall x | x in s.responses
      ensures ScoresChecked(x)
    {
      var i :| 0 <= i < |s.responses| && s.responses[i] == x;
    }
  }

  // ---- lookups ----

  /** `SELECT * FROM users WHERE id = ?`. */
  function FindUser(users: seq<User>, id: int): (r: Option<User>)
    ensures r.Some? ==> r.value in users && r.value.id == id
    ensures r.None? ==> forall u :: u in users ==> u.id != id
  {
    if |users| == 0 then None
    else if users[0].id == id then Some(users[0])
    else FindUser(users[1..], id)
  }

  /** `SELECT * FROM users WHERE phone_number = ?`. */
  function FindUserByPhone(users: seq<User>, phone: string): (r: Option<User>)
    ensures r.Some? ==> r.value in users && r.value.phone == phone
    ensures r.None? ==> forall u :: u in users ==> u.phone != phone
  {
    if |users| == 0 then None
    else if users[0].phone == phone then Some(users[0])
    else FindUserByPhone(users[1..], phone)
  }

  /** `SELECT * FROM campaigns WHERE id = ?`. */
  function FindCampaign(campaigns: seq<Campaign>, id: int): (r: Option<Campaign>)
    ensures r.Some? ==> r.value in campaigns && r.value.id == id
    ensures r.None? ==> forall c :: c in campaigns ==> c.id != id
  {
    if |campaigns| == 0 then None
    else if campaigns[0].id == id then Some(campaigns[0])
    else FindCampaign(campaigns[1..], id)
  }

  /** `SELECT id FROM survey_responses WHERE user_id = ? AND campaign_id = ? AND response_date = ?`
      found a row. */
  predicate HasResponse(responses: seq<Response>, userId: int, campaignId: int, date: int) {
    exists i :: 0 <= i < |responses| && responses[i].userId == userId
                && responses[i].campaignId == campaignId && responses[i].date == date
  }

  // ---- the rolling week ----

  /** The rows of one user, optionally of one campaign, dated on or after `since`. */
  predicate InWindow(r: Response, userId: int, campaignId: Option<int>, since: int) {
    r.userId == userId && (campaignId.None? || r.campaignId == campaignId.value) && r.date >= since
  }

  function WindowRows(responses: seq<Response>, userId: int, campaignId: Option<int>, since: int): (rows: seq<Response>)
    ensures forall r :: r in rows <==> r in responses && InWindow(r, userId, campaignId, since)
  {
    Filter(responses, (r: Response) => InWindow(r, userId, campaignId, since))
  }

  /** `SUM(column)`: NULL over no rows, otherwise the integer sum. */
  function SqlSum(rows: seq<Response>, column: Response -> int): (total: Option<int>)
    ensures total.None? <==> |rows| == 0
  {
    if |rows| == 0 then None else Some(Sum(rows, column))
  }

  /** The row `SELECT SUM(joy_score), SUM(achievement_score), SUM(meaningfulness_score)`
      returns; each sum is NULL when no row is summed. */
  datatype WeeklyTotals = WeeklyTotals(joy: Option<int>, achievement: Option<int>, meaningfulness: Option<int>)

  function WeeklySums(rows: seq<Response>): WeeklyTotals {
    WeeklyTotals(SqlSum(rows, (r: Response) => r.joy), SqlSum(rows, (r: Response) => r.achievement),
                 SqlSum(rows, (r: Response) => r.meaningfulness))
  }

  /** The window a day's check-in belongs to: `response_date >= date('now', '-7 days')`.
      It has no upper end, so rows dated after today are summed too. */
  function WeekStart(today: int): int {
    today - 7
  }

  /** The week's sums of one user in one campaign, as both submission paths query them. */
  function CampaignWeek(s: Store, userId: int, campaignId: int, today: int): WeeklyTotals {
    WeeklySums(WindowRows(s.responses, userId, Some(campaignId), WeekStart(today)))
  }

  /** A checked row in the window makes every weekly sum at least its score. */
  lemma WeeklySumsAtLeast(rows: seq<Response>, r: Response)
    requires forall x :: x in rows ==> ScoresChecked(x)
    requires r in rows
    ensures WeeklySums(rows).joy.Some? && WeeklySums(rows).joy.value >= r.joy
    ensures WeeklySums(rows).achievement.Some? && WeeklySums(rows).achievement.value >= r.achievement
    ensures WeeklySums(rows).meaningfulness.Some? && WeeklySums(rows).meaningfulness.value >= r.meaningfulness
  {
    SumAtLeastMember(rows, (x: Response) => x.joy, r);
    SumAtLeastMember(rows, (x: Response) => x.achievement, r);
    SumAtLeastMember(rows, (x: Response) => x.meaningfulness, r);
  }

  /** After storing a checked row, its week's sums are at least its scores. */
  lemma CampaignWeekIncludes(s: Store, row: Response, today: int)
    requires Valid(s)
    requires row in s.responses && row.date >= WeekStart(today)
    ensures var week := CampaignWeek(s, row.userId, row.campaignId, today);
            && week.joy.Some? && week.joy.value >= row.joy
            && week.achievement.Some? && week.achievement.value >= row.achievement
            && week.meaningfulness.Some? && week.meaningfulness.value >= row.meaningfulness
  {
    StoredScoresChecked(s);
    var rows := WindowRows(s.responses, row.userId, Some(row.campaignId), WeekStart(today));
    assert InWindow(row, row.userId, Some(row.campaignId), WeekStart(today));
    WeeklySumsAtLeast(rows, row);
  }

  // ---- joined rows ----

  /** A response row joined with its user and campaign, as the listing, the
      submission answer and the export select it. */
  datatype Joined = Joined(response: Response, userName: Option<string>, phone: string, campaignName: string)

  /** `JOIN users u ON sr.user_id = u.id JOIN campaigns c ON sr.campaign_id = c.id`:
      no row when either side is missing. */
  function JoinRow(s: Store, r: Response): (j: Option<Joined>)
    ensures j.Some? <==> FindUser(s.users, r.userId).Some? && FindCampaign(s.campaigns, r.campaignId).Some?
    ensures j.Some? ==> j.value.response == r && j.value.phone == FindUser(s.users, r.userId).value.phone
  {
    match (FindUser(s.users, r.userId), FindCampaign(s.campaigns, r.campaignId))
    case (Some(u), Some(c)) => Some(Joined(r, u.name, u.phone, c.name))
    case _ => None
  }

  // ---- writes ----

  /** `INSERT INTO users (phone_number, name, timezone)`: refused when the
      phone number is taken; `is_active` takes its default 1. */
  function InsertUser(s: Store, phone: string, name: Option<string>, timezone: string): (r: Result<(Store, int), DbError>)
    ensures r.Err? <==> FindUserByPhone(s.users, phone).Some?
    ensures r.Err? ==> r.error == UniqueViolation
    ensures r.Ok? ==> var (t, id) := r.value;
                      && t.users == s.users + [User(id, phone, name, Some(timezone), Some(1))]
                      && t == s.(users := t.users, nextUserId := id + 1)
                      && id == s.nextUserId
  {
    if FindUserByPhone(s.users, phone).Some? then Err(UniqueViolation)
    else
      var id := s.nextUserId;
      Ok((s.(users := s.users + [User(id, phone, name, Some(timezone), Some(1))], nextUserId := id + 1), id))
  }

  /** `INSERT OR IGNORE INTO users ...`: a taken phone number leaves the table as it is. */
  function InsertUserOrIgnore(s: Store, phone: string, name: Option<string>, timezone: string): (t: Store)
    ensures FindUserByPhone(s.users, phone).Some? ==> t == s
    ensures FindUserByPhone(s.users, phone).None? ==> InsertUser(s, phone, name, timezone) == Ok((t, s.nextUserId))
  {
    match InsertUser(s, phone, name, timezone)
    case Ok((t, _)) => t
    case Err(_) => s
  }

  lemma InsertUserValid(s: Store, phone: string, name: Option<string>, timezone: string)
    requires Valid(s)
    requires InsertUser(s, phone, name, timezone).Ok?
    ensures Valid(InsertUser(s, phone, name, timezone).value.0)
  {
  }

  /** On a valid store the UNIQUE phone constraint refuses a user exactly
      when storing it would break the schema's guarantees. */
  lemma InsertUserRefusedIffInvalid(s: Store, phone: string, name: Option<string>, timezone: string)
    requires Valid(s)
    ensures var t := s.(users := s.users + [User(s.nextUserId, phone, name, Some(timezone), Some(1))],
                        nextUserId := s.nextUserId + 1);
            InsertUser(s, phone, name, timezone).Ok? <==> Valid(t)
  {
    var t := s.(users := s.users + [User(s.nextUserId, phone, name, Some(timezone), Some(1))],
                nextUserId := s.nextUserId + 1);
    if InsertUser(s, phone, name, timezone).Ok? {
      InsertUserValid(s, phone, name, timezone);
    } else {
      var u := FindUserByPhone(s.users, phone).value;
      var i :| 0 <= i < |s.users| && s.users[i] == u;
      assert t.users[i].phone == t.users[|s.users|].phone;
    }
  }

  /** `INSERT INTO survey_responses ...`: refused by a score CHECK first,
      then by the UNIQUE (user, campaign, day) triple. */
  function InsertResponse(s: Store, userId: int, campaignId: int, date: int, joy: int, achievement: int,
                          meaningfulness: int, freeText: Option<string>): (r: Result<(Store, int), DbError>)
    ensures r.Ok? <==> InScoreRange(joy) && InScoreRange(achievement) && InScoreRange(meaningfulness)
                       && !HasResponse(s.responses, userId, campaignId, date)
    ensures r.Ok? ==> var (t, id) := r.value;
                      && id == s.nextResponseId
                      && t == s.(responses := s.responses + [Response(id, userId, campaignId, date, joy, achievement,
                                                                    meaningfulness, freeText)],
                                 nextResponseId := id + 1)
  {
    if !(InScoreRange(joy) && InScoreRange(achievement) && InScoreRange(meaningfulness)) then Err(CheckViolation)
    else if HasResponse(s.responses, userId, campaignId, date) then Err(UniqueViolation)
    else
      var id := s.nextResponseId;
      Ok((s.(responses := s.responses + [Response(id, userId, campaignId, date, joy, achievement, meaningfulness, freeText)],
             nextResponseId := id + 1), id))
  }

  /** A response is inserted only when it keeps the schema's guarantees. */
  lemma InsertResponseValid(s: Store, userId: int, campaignId: int, date: int, joy: int, achievement: int,
                            meaningfulness: int, freeText: Option<string>)
    requires Valid(s)
    requires InsertResponse(s, userId, campaignId, date, joy, achievement, meaningfulness, freeText).Ok?
    ensures Valid(InsertResponse(s, userId, campaignId, date, joy, achievement, meaningfulness, freeText).value.0)
  {
    var t := InsertResponse(s, userId, campaignId, date, joy, achievement, meaningfulness, freeText).value.0;
    var rs := t.responses;
    var n := |s.responses|;
    forall i, j | 0 <= i < j < |rs|
      ensures !SameDay(rs[i], rs[j])
    {
      if j == n {
        assert rs[i] == s.responses[i];
      }
    }
  }

  /** On a valid store the score CHECKs and the UNIQUE (user, campaign, day)
      triple refuse a response exactly when storing it would break the
      schema's guarantees. */
  lemma InsertResponseRefusedIffInvalid(s: Store, userId: int, campaignId: int, date: int, joy: int, achievement: int,
                                        meaningfulness: int, freeText: Option<string>)
    requires Valid(s)
    ensures var row := Response(s.nextResponseId, userId, campaignId, date, joy, achievement, meaningfulness, freeText);
            var t := s.(responses := s.responses + [row], nextResponseId := s.nextResponseId + 1);
            InsertResponse(s, userId, campaignId, date, joy, achievement, meaningfulness, freeText).Ok? <==> Valid(t)
  {
    var row := Response(s.nextResponseId, userId, campaignId, date, joy, achievement, meaningfulness, freeText);
    var t := s.(responses := s.responses + [row], nextResponseId := s.nextResponseId + 1);
    var n := |s.responses|;
    if InsertResponse(s, userId, campaignId, date, joy, achievement, meaningfulness, freeText).Ok? {
      InsertResponseValid(s, userId, campaignId, date, joy, achievement, meaningfulness, freeText);
    } else if !ScoresChecked(row) {
      assert t.responses[n] == row;
    } else {
      var i :| 0 <= i < n && s.responses[i].userId == userId
               && s.responses[i].campaignId == campaignId && s.responses[i].date == date;
      assert SameDay(t.responses[i], t.responses[n]);
    }
  }

  /** `INSERT INTO sms_logs ...` with the next id. */
  function AppendLog(s: Store, userId: int, campaignId: int, kind: MessageKind, content: string,
                     sid: Option<string>, status: string, error: Option<string>): (t: Store)
    ensures t.logs == s.logs + [LogRow(s.nextLogId, userId, campaignId, kind, content, sid, Some(status), None, error)]
    ensures t == s.(logs := t.logs, nextLogId := s.nextLogId + 1)
  {
    s.(logs := s.logs + [LogRow(s.nextLogId, userId, campaignId, kind, content, sid, Some(status), None, error)],
       nextLogId := s.nextLogId + 1)
  }

  lemma AppendLogValid(s: Store, userId: int, campaignId: int, kind: MessageKind, content: string,
                       sid: Option<string>, status: string, error: Option<string>)
    requires Valid(s)
    ensures Valid(AppendLog(s, userId, campaignId, kind, content, sid, status, error))
  {
  }
}
