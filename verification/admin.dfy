/** The admin routes: the bearer-password gate in front of them, the test
    send, the bulk user import and the CSV export of responses. */
module Admin {
  import opened Base
  import opened Text
  import opened Database
  import opened SmsService
  import opened Scheduler
  import opened Responses
  import opened Csv
  import Users

  // ---- adminAuth ----

  datatype AuthOutcome =
    | Granted
    | MissingHeader   // 401 'Authorization header required'
    | WrongPassword   // 401 'Invalid admin password'

  /** The password when ADMIN_PASSWORD is unset or empty. */
  const DefaultPassword: string := "admin123"

  const BearerPrefix: string := "Bearer "

  /** `header` is the Authorization header and `password` the ADMIN_PASSWORD
      environment variable. */
  function AdminAuth(header: Option<string>, password: Option<string>): (r: AuthOutcome)
    ensures r.MissingHeader? <==> !(PresentText(header) && StartsWith(header.value, BearerPrefix))
    ensures r.Granted? <==> PresentText(header) && header.value == BearerPrefix + OrDefault(password, DefaultPassword)
  {
    var expected := OrDefault(password, DefaultPassword);
    if !PresentText(header) || !StartsWith(header.value, BearerPrefix) then MissingHeader
    else
      var token := header.value[|BearerPrefix|..];
      assert header.value == BearerPrefix + token;
      if token != expected then WrongPassword else Granted
  }

  /** With ADMIN_PASSWORD unset, the well-known default opens every admin
      route, and any other token is refused as a wrong password. */
  lemma DefaultPasswordOpens(token: string)
    ensures AdminAuth(Some(BearerPrefix + token), None).Granted? <==> token == "admin123"
    ensures token != "admin123" ==> AdminAuth(Some(BearerPrefix + token), None).WrongPassword?
  {
    var h := BearerPrefix + token;
    assert h[..|BearerPrefix|] == BearerPrefix;
    if AdminAuth(Some(h), None).Granted? {
      assert h[|BearerPrefix|..] == token;
    }
  }

  // ---- POST /admin/test-sms ----

  datatype TestSmsOutcome =
    | TestSmsBadRequest   // 400 'user_id and campaign_id are required'
    | TestSmsAnswered(result: TestResult)

  function TestSms(s: Store, userId: Option<int>, campaignId: Option<int>, baseUrl: string, gateway: Delivery)
    : (r: (Store, TestSmsOutcome))
    ensures r.1.TestSmsBadRequest? <==> !PresentId(userId) || !PresentId(campaignId)
    ensures r.1.TestSmsBadRequest? ==> r.0 == s
    ensures r.1.TestSmsAnswered? ==>
              && (r.1.result.TestSent? <==> FindUser(s.users, userId.value).Some?
                                            && FindCampaign(s.campaigns, campaignId.value).Some? && gateway.Sent?)
              && |r.0.logs| == |s.logs| + 1
  {
    if !PresentId(userId) || !PresentId(campaignId) then (s, TestSmsBadRequest)
    else
      var (t, result) := SendTestSurvey(s, userId.value, campaignId.value, baseUrl, gateway);
      (t, TestSmsAnswered(result))
  }

  // ---- POST /admin/users/import ----

  /** One element of the `users` array: `null`, or an object whose fields
      may be missing. */
  datatype ImportEntry = NullEntry | Entry(phone: Option<string>, name: Option<string>, timezone: Option<string>)

  datatype ImportTally = ImportTally(success: nat, failed: nat, errors: seq<string>)

  datatype ImportOutcome =
    | ImportBadRequest   // 400 'users array is required and must not be empty'
    | Imported(tally: ImportTally)
    | ImportServerError  // 500 'Failed to import users'

  const MissingPhonePrefix: string := "Missing phone number for user: "

  predicate HasPhone(e: ImportEntry) {
    e.Entry? && PresentText(e.phone)
  }

  /** One pass of the loop body as written. A `null` element makes the
      destructuring throw, and the catch block then reads `user.phone_number`
      of that same `null` and throws again, out of the loop: `None` here.
      `show` renders an entry as `JSON.stringify` does. */
  function ImportStep(t: Store, tally: ImportTally, e: ImportEntry, show: ImportEntry -> string)
    : (r: (Store, Option<ImportTally>))
  {
    match e
    case NullEntry => (t, None)
    case Entry(phone, name, timezone) =>
      if !PresentText(phone) then
        (t, Some(tally.(failed := tally.failed + 1, errors := tally.errors + [MissingPhonePrefix + show(e)])))
      else
        (InsertUserOrIgnore(t, phone.value, OrNull(name), OrDefault(timezone, Users.DefaultTimezone)),
         Some(tally.(success := tally.success + 1)))
  }

  /** The loop over the entries as written: the store after the entries
      processed and the tally, or `None` when a `null` entry aborted it. */
  function ImportAll(s: Store, es: seq<ImportEntry>, show: ImportEntry -> string): (r: (Store, Option<ImportTally>))
  {
    if |es| == 0 then (s, Some(ImportTally(0, 0, [])))
    else
      var (t, tally) := ImportAll(s, es[..|es| - 1], show);
      if tally.None? then (t, None) else ImportStep(t, tally.value, es[|es| - 1], show)
  }

  /** The handler, with the loop of the source. `body` is `None` when
      `users` is not an array. */
  method ImportUsers(s: Store, body: Option<seq<ImportEntry>>, show: ImportEntry -> string)
    returns (t: Store, r: ImportOutcome)
    ensures r.ImportBadRequest? <==> body.None? || |body.value| == 0
    ensures r.ImportBadRequest? ==> t == s
    ensures !r.ImportBadRequest? ==> t == ImportAll(s, body.value, show).0
    ensures r.Imported? <==> !r.ImportBadRequest? && ImportAll(s, body.value, show).1.Some?
    ensures r.Imported? ==> r.tally == ImportAll(s, body.value, show).1.value
  {
    if body.None? || |body.value| == 0 {
      return s, ImportBadRequest;
    }
    var es := body.value;
    t := s;
    var tally := ImportTally(0, 0, []);
    var i := 0;
    while i < |es|
      invariant 0 <= i <= |es|
      invariant ImportAll(s, es[..i], show) == (t, Some(tally))
    {
      assert es[..i + 1][..i] == es[..i];
      var e := es[i];
      if e.NullEntry? {
        AbortStays(s, es, i + 1, show);
        assert es[..|es|] == es;
        return t, ImportServerError;
      }
      if !PresentText(e.phone) {
        tally := tally.(failed := tally.failed + 1, errors := tally.errors + [MissingPhonePrefix + show(e)]);
      } else {
        t := InsertUserOrIgnore(t, e.phone.value, OrNull(e.name), OrDefault(e.timezone, Users.DefaultTimezone));
        tally := tally.(success := tally.success + 1);
      }
      i := i + 1;
    }
    assert es[..i] == es;
    return t, Imported(tally);
  }

  /** Once a `null` entry has aborted the loop, later entries change nothing. */
  lemma {:induction false} AbortStays(s: Store, es: seq<ImportEntry>, i: nat, show: ImportEntry -> string)
    requires i <= |es|
    requires ImportAll(s, es[..i], show).1.None?
    ensures ImportAll(s, es, show) == ImportAll(s, es[..i], show)
  {
    if i < |es| {
      assert es[..|es| - 1][..i] == es[..i];
      AbortStays(s, es[..|es| - 1], i, show);
    } else {
      assert es[..i] == es;
    }
  }

  /** The tally of a completed import accounts for every entry: each is a
      success or a failure, and each failure left exactly one error. */
  lemma {:induction false} ImportCounts(s: Store, es: seq<ImportEntry>, show: ImportEntry -> string)
    requires ImportAll(s, es, show).1.Some?
    ensures var tally := ImportAll(s, es, show).1.value;
            && tally.success + tally.failed == |es|
            && |tally.errors| == tally.failed
            && tally.success == Count(es, HasPhone)
  {
    if |es| > 0 {
      var init := es[..|es| - 1];
      assert es == init + [es[|es| - 1]];
      FilterAppend(init, [es[|es| - 1]], HasPhone);
      ImportCounts(s, init, show);
    }
  }

  /** Importing keeps the schema's guarantees. */
  lemma {:induction false} ImportValid(s: Store, es: seq<ImportEntry>, show: ImportEntry -> string)
    requires Valid(s)
    ensures Valid(ImportAll(s, es, show).0)
  {
    if |es| > 0 {
      var init := es[..|es| - 1];
      ImportValid(s, init, show);
      var (t, tally) := ImportAll(s, init, show);
      var e := es[|es| - 1];
      if tally.Some? && HasPhone(e) && FindUserByPhone(t.users, e.phone.value).None? {
        InsertUserValid(t, e.phone.value, OrNull(e.name), OrDefault(e.timezone, Users.DefaultTimezone));
      }
    }
  }

  /** `INSERT OR IGNORE`: the users already stored keep their place and
      their fields, since an entry whose phone is known is skipped and never
      overwrites the stored name or time zone. */
  lemma {:induction false} ImportKeepsUsers(s: Store, es: seq<ImportEntry>, show: ImportEntry -> string)
    ensures var t := ImportAll(s, es, show).0;
            |s.users| <= |t.users| && t.users[..|s.users|] == s.users
  {
    if |es| > 0 {
      ImportKeepsUsers(s, es[..|es| - 1], show);
      var t := ImportAll(s, es[..|es| - 1], show).0;
      var u := ImportAll(s, es, show).0;
      assert u.users[..|t.users|] == t.users;
      assert u.users[..|s.users|] == t.users[..|s.users|];
    }
  }

  /** An entry whose phone number is already stored counts as a success
      and leaves the store as it was: no second user with that number. */
  lemma ImportKnownPhone(t: Store, tally: ImportTally, e: ImportEntry, show: ImportEntry -> string)
    requires HasPhone(e) && FindUserByPhone(t.users, e.phone.value).Some?
    ensures ImportStep(t, tally, e, show) == (t, Some(tally.(success := tally.success + 1)))
  {
  }

  /** After a completed import every entry's phone number is stored. */
  lemma {:induction false} ImportedPhonesStored(s: Store, es: seq<ImportEntry>, show: ImportEntry -> string, k: nat)
    requires ImportAll(s, es, show).1.Some?
    requires k < |es| && HasPhone(es[k])
    ensures FindUserByPhone(ImportAll(s, es, show).0.users, es[k].phone.value).Some?
  {
    var init := es[..|es| - 1];
    var t := ImportAll(s, init, show).0;
    var u := ImportAll(s, es, show).0;
    var p := es[k].phone.value;
    assert u.users[..|t.users|] == t.users by {
      assert u.users == t.users || FindUserByPhone(t.users, es[|es| - 1].phone.value).None?;
    }
    if k < |es| - 1 {
      ImportedPhonesStored(s, init, show, k);
      var w := FindUserByPhone(t.users, p).value;
      assert w in u.users by {
        var i :| 0 <= i < |t.users| && t.users[i] == w;
        assert u.users[i] == w;
      }
    }
  }

  /** Unlike `POST /users`, the import checks no phone pattern: a number the
      pattern refuses is stored all the same. */
  lemma ImportSkipsPhonePattern(s: Store, show: ImportEntry -> string)
    requires FindUserByPhone(s.users, "abc").None?
    ensures !Users.IsPhone("abc")
    ensures FindUserByPhone(ImportAll(s, [Entry(Some("abc"), None, None)], show).0.users, "abc").Some?
  {
    var es := [Entry(Some("abc"), None, None)];
    assert es[..0] == [];
    assert !Users.AllDigits("abc");
    ImportedPhonesStored(s, es, show, 0);
  }

  /** A `null` element aborts the whole import with a 500, although the
      per-entry catch block is evidently meant to count it as a failure. */
  lemma NullEntryAborts(s: Store, show: ImportEntry -> string)
    ensures ImportAll(s, [NullEntry], show).1.None?
    ensures ImportAllCorrected(s, [NullEntry], show).1.failed == 1
  {
    assert [NullEntry][..0] == [];
  }

  /** The loop body with the catch block reading the entry safely: a `null`
      element is a failure like an entry without a phone number. */
  function ImportStepCorrected(t: Store, tally: ImportTally, e: ImportEntry, show: ImportEntry -> string)
    : (r: (Store, ImportTally))
  {
    if !HasPhone(e) then
      (t, tally.(failed := tally.failed + 1, errors := tally.errors + [MissingPhonePrefix + show(e)]))
    else
      (InsertUserOrIgnore(t, e.phone.value, OrNull(e.name), OrDefault(e.timezone, Users.DefaultTimezone)),
       tally.(success := tally.success + 1))
  }

  function ImportAllCorrected(s: Store, es: seq<ImportEntry>, show: ImportEntry -> string): (r: (Store, ImportTally))
  {
    if |es| == 0 then (s, ImportTally(0, 0, []))
    else
      var (t, tally) := ImportAllCorrected(s, es[..|es| - 1], show);
      ImportStepCorrected(t, tally, es[|es| - 1], show)
  }

  /** With the catch block corrected, every import completes and its tally
      accounts for every entry; where the written loop completes, the two
      agree. */
  lemma {:induction false} ImportCorrectedCounts(s: Store, es: seq<ImportEntry>, show: ImportEntry -> string)
    ensures var tally := ImportAllCorrected(s, es, show).1;
            && tally.success + tally.failed == |es|
            && |tally.errors| == tally.failed
            && tally.success == Count(es, HasPhone)
    ensures ImportAll(s, es, show).1.Some? ==>
              ImportAll(s, es, show) == (ImportAllCorrected(s, es, show).0, Some(ImportAllCorrected(s, es, show).1))
  {
    if |es| > 0 {
      var init := es[..|es| - 1];
      assert es == init + [es[|es| - 1]];
      FilterAppend(init, [es[|es| - 1]], HasPhone);
      ImportCorrectedCounts(s, init, show);
    }
  }

  // ---- GET /admin/export/responses?format=csv ----

  /** The column titles of the CSV header line. */
  const CsvColumns: seq<string> :=
    ["ID", "User Name", "Phone Number", "Campaign", "Response Date", "Joy Score", "Achievement Score",
     "Meaningfulness Score", "Free Text", "Submitted At"]

  /** The header line: the titles, written bare and comma-separated. */
  function CsvHeaderLine(): string {
    Line(BareFields(CsvColumns))
  }

  /** A title that can stand as a bare field and holds no line break. */
  predicate PlainTitle(t: string) {
    ',' !in t && '\n' !in t && (|t| == 0 || t[0] != '"')
  }

  lemma TitlesPlain()
    ensures forall i :: 0 <= i < |CsvColumns| ==> PlainTitle(CsvColumns[i])
  {
    assert PlainTitle("ID");
    assert PlainTitle("User Name");
    assert PlainTitle("Phone Number");
    assert PlainTitle("Campaign");
    assert PlainTitle("Response Date");
    assert PlainTitle("Joy Score");
    assert PlainTitle("Achievement Score");
    assert PlainTitle("Meaningfulness Score");
    assert PlainTitle("Free Text");
    assert PlainTitle("Submitted At");
  }

  /** The header reads back as the ten titles, one per field of a row, and
      holds no line break. */
  lemma HeaderReads()
    ensures ReadRecord(CsvHeaderLine()) == Some(CsvColumns)
    ensures '\n' !in CsvHeaderLine()
  {
    TitlesPlain();
    BareLineReads(CsvColumns);
  }

  /** The rows exported: every joined response, of the one campaign when
      `campaign_id` is given, newest first. The query parameter is a string,
      so even `"0"` is truthy and selects campaign 0; `None` stands for a
      parameter that is absent or empty. */
  function ExportRows(s: Store, campaignId: Option<int>): (js: seq<Joined>)
    ensures forall j :: j in js ==> j.response in s.responses
    ensures campaignId.Some? ==> forall j :: j in js ==> j.response.campaignId == campaignId.value
  {
    Listing(s, s.responses, None, campaignId)
  }

  /** When every response still has its user and campaign, the export has
      one row per response of the selected campaign, or per response. */
  lemma ExportComplete(s: Store, campaignId: Option<int>)
    requires forall x :: x in s.responses ==> JoinRow(s, x).Some?
    ensures |ExportRows(s, campaignId)|
            == Count(s.responses, (x: Response) => campaignId.None? || x.campaignId == campaignId.value)
  {
    ListingComplete(s, s.responses, None, campaignId);
    FilterSame(s.responses, (x: Response) => Selected(x, None, campaignId),
               (x: Response) => campaignId.None? || x.campaignId == campaignId.value);
  }

  /** A text between double quotes, as the template literal puts it. */
  function Enclose(t: string): string {
    "\"" + t + "\""
  }

  /** The ten fields of one CSV line as the template literal writes them:
      every text is put between quotes, but only the free text has its
      quotes doubled; the others are written as they are. `date` renders a
      response day and `stamp` a response's `submitted_at`. */
  function RowFields(j: Joined, date: int -> string, stamp: Response -> string): (fs: seq<Field>)
    ensures |fs| == 10
  {
    var r := j.response;
    [Bare(ShowInt(r.id)), Bare(Enclose(j.userName.GetOr(""))), Bare(Enclose(j.phone)), Bare(Enclose(j.campaignName)),
     Bare(Enclose(date(r.date))), Bare(ShowInt(r.joy)), Bare(ShowInt(r.achievement)), Bare(ShowInt(r.meaningfulness)),
     Quoted(r.freeText.GetOr("")), Bare(Enclose(stamp(r)))]
  }

  function CsvRow(j: Joined, date: int -> string, stamp: Response -> string): string {
    Line(RowFields(j, date, stamp))
  }

  function CsvRows(js: seq<Joined>, date: int -> string, stamp: Response -> string): (rows: seq<string>)
    ensures |rows| == |js|
    ensures forall i :: 0 <= i < |js| ==> rows[i] == CsvRow(js[i], date, stamp)
  {
    if |js| == 0 then [] else [CsvRow(js[0], date, stamp)] + CsvRows(js[1..], date, stamp)
  }

  function ExportCsv(s: Store, campaignId: Option<int>, date: int -> string, stamp: Response -> string): (csv: string)
    ensures StartsWith(csv, CsvHeaderLine() + "\n")
  {
    var header := CsvHeaderLine() + "\n";
    var csv := header + Join(CsvRows(ExportRows(s, campaignId), date, stamp), '\n');
    assert csv[..|header|] == header;
    csv
  }

  /** No line break inside any field of the row. */
  predicate SingleLine(j: Joined, date: int -> string, stamp: Response -> string) {
    && '\n' !in j.userName.GetOr("") && '\n' !in j.phone && '\n' !in j.campaignName
    && '\n' !in date(j.response.date) && '\n' !in j.response.freeText.GetOr("") && '\n' !in stamp(j.response)
  }

  /** A rendered integer is a non-empty run of digits, perhaps after a minus
      sign: it can stand as a bare field and holds no line break. */
  lemma ShowIntPlain(n: int)
    ensures Readable(Bare(ShowInt(n)))
    ensures '\n' !in ShowInt(n)
  {
    assert ShowInt(n)[0] in ShowInt(n);
  }

  /** Doubling quotes adds no character other than a quote. */
  lemma {:induction false} DoubleQuotesKeeps(x: string, c: char)
    requires c != '"'
    ensures c in DoubleQuotes(x) <==> c in x
  {
    if |x| > 0 {
      DoubleQuotesKeeps(x[1..], c);
      assert x == [x[0]] + x[1..];
    }
  }

  lemma CsvRowSingleLine(j: Joined, date: int -> string, stamp: Response -> string)
    requires SingleLine(j, date, stamp)
    ensures '\n' !in CsvRow(j, date, stamp)
  {
    var r := j.response;
    var fs := RowFields(j, date, stamp);
    ShowIntPlain(r.id);
    ShowIntPlain(r.joy);
    ShowIntPlain(r.achievement);
    ShowIntPlain(r.meaningfulness);
    DoubleQuotesKeeps(r.freeText.GetOr(""), '\n');
    forall i | 0 <= i < 10
      ensures '\n' !in Render(fs[i])
    {
    }
    LineAvoids(fs, '\n');
  }

  lemma CsvRowsSingleLine(js: seq<Joined>, date: int -> string, stamp: Response -> string)
    requires forall j :: j in js ==> SingleLine(j, date, stamp)
    ensures forall i :: 0 <= i < |js| ==> '\n' !in CsvRows(js, date, stamp)[i]
  {
    forall i | 0 <= i < |js|
      ensures '\n' !in CsvRows(js, date, stamp)[i]
    {
      CsvRowSingleLine(js[i], date, stamp);
    }
  }

  /** When no field holds a line break, the export's lines are the header
      and then one line per exported response; an empty export is the
      header followed by one empty line. */
  lemma ExportLines(s: Store, campaignId: Option<int>, date: int -> string, stamp: Response -> string)
    requires forall j :: j in ExportRows(s, campaignId) ==> SingleLine(j, date, stamp)
    ensures var rows := CsvRows(ExportRows(s, campaignId), date, stamp);
            Split(ExportCsv(s, campaignId, date, stamp), '\n') == [CsvHeaderLine()] + (if |rows| == 0 then [""] else rows)
  {
    var js := ExportRows(s, campaignId);
    var rows := CsvRows(js, date, stamp);
    var body := Join(rows, '\n');
    assert ExportCsv(s, campaignId, date, stamp) == CsvHeaderLine() + ['\n'] + body;
    HeaderReads();
    SplitAfterHead(CsvHeaderLine(), body, '\n');
    if |rows| > 0 {
      CsvRowsSingleLine(js, date, stamp);
      SplitJoin(rows, '\n');
    }
  }

  /** An enclosed field with a lone quote inside closes at that quote, and
      the text after it is neither a comma nor the line's end. */
  lemma StrayQuoteUnreadable(rest: string)
    ensures ReadRecord("\"A\"B\"" + "," + rest) == None
  {
    var after := "," + rest;
    var field := "\"A\"B\"" + "," + rest;
    assert field == "\"A\"B\"" + after;
    var y := field[1..];
    assert y == ['A'] + ("\"B\"" + after);
    assert y[1..] == "\"B\"" + after;
    assert y[1..][0] == '"' && y[1..][1] == 'B';
    assert y[1..][1..] == "B\"" + after;
    assert ReadQuoted(y[1..]) == Some(("", "B\"" + after));
    assert ['A'] + "" == "A";
    assert ReadQuoted(y) == Some(("A", "B\"" + after));
  }

  /** A user name holding a double quote ends its field early: the line no
      longer reads as a record at all. */
  lemma QuoteInNameBreaksRow(j: Joined, date: int -> string, stamp: Response -> string)
    requires j.userName == Some("A\"B")
    ensures ReadRecord(CsvRow(j, date, stamp)) == None
  {
    var fs := RowFields(j, date, stamp);
    LineHeads(fs);
    assert Render(fs[1]) == "\"A\"B\"";
    StrayQuoteUnreadable(Line(fs[2..]));
    ShowIntPlain(j.response.id);
    ReadBareThen(ShowInt(j.response.id), Line(fs[1..]));
  }

  /** The line with every quoted field's quotes doubled, as section 2 of
      RFC 4180 asks. */
  function CsvRecord(j: Joined, date: int -> string, stamp: Response -> string): string {
    Line(CsvFields(j, date, stamp))
  }

  function CsvFields(j: Joined, date: int -> string, stamp: Response -> string): (fs: seq<Field>)
    ensures |fs| == 10
  {
    var r := j.response;
    [Bare(ShowInt(r.id)), Quoted(j.userName.GetOr("")), Quoted(j.phone), Quoted(j.campaignName), Quoted(date(r.date)),
     Bare(ShowInt(r.joy)), Bare(ShowInt(r.achievement)), Bare(ShowInt(r.meaningfulness)),
     Quoted(r.freeText.GetOr("")), Quoted(stamp(r))]
  }

  lemma CsvFieldsReadable(j: Joined, date: int -> string, stamp: Response -> string)
    ensures forall i :: 0 <= i < 10 ==> Readable(CsvFields(j, date, stamp)[i])
  {
    var r := j.response;
    ShowIntPlain(r.id);
    ShowIntPlain(r.joy);
    ShowIntPlain(r.achievement);
    ShowIntPlain(r.meaningfulness);
  }

  /** Every line of the corrected export reads back as the response's ten
      values, whatever characters the texts hold. */
  lemma CsvRecordReads(j: Joined, date: int -> string, stamp: Response -> string)
    ensures var r := j.response;
            ReadRecord(CsvRecord(j, date, stamp))
              == Some([ShowInt(r.id), j.userName.GetOr(""), j.phone, j.campaignName, date(r.date),
                       ShowInt(r.joy), ShowInt(r.achievement), ShowInt(r.meaningfulness),
                       r.freeText.GetOr(""), stamp(r)])
  {
    CsvFieldsReadable(j, date, stamp);
    ReadLine(CsvFields(j, date, stamp));
    CsvFieldsTexts(j, date, stamp);
  }

  lemma CsvFieldsTexts(j: Joined, date: int -> string, stamp: Response -> string)
    ensures var r := j.response;
            Texts(CsvFields(j, date, stamp))
              == [ShowInt(r.id), j.userName.GetOr(""), j.phone, j.campaignName, date(r.date),
                  ShowInt(r.joy), ShowInt(r.achievement), ShowInt(r.meaningfulness),
                  r.freeText.GetOr(""), stamp(r)]
  {
  }

  /** Where no enclosed field but the free text holds a double quote, the
      written line and the corrected one are the same. */
  lemma CsvRowAgrees(j: Joined, date: int -> string, stamp: Response -> string)
    requires '"' !in j.userName.GetOr("") && '"' !in j.phone && '"' !in j.campaignName
    requires '"' !in date(j.response.date) && '"' !in stamp(j.response)
    ensures CsvRow(j, date, stamp) == CsvRecord(j, date, stamp)
  {
    var fs := RowFields(j, date, stamp);
    var gs := CsvFields(j, date, stamp);
    forall i | 0 <= i < 10
      ensures Render(fs[i]) == Render(gs[i])
    {
    }
    LineSameRender(fs, gs);
  }
}
