# LifeMatrix daily check-in: a Dafny model

LifeMatrix texts each active user a survey every morning. The survey asks for three scores from 1 to 10: joy, achievement and meaningfulness. A user can also add a free-text remark. The answer arrives either as an SMS reply (`"8,7,9,Great day!"`) or through the web form. The server stores one response per user, campaign and day. It answers with a feedback text holding:

- the scores;
- their mean to one decimal;
- the week's totals;
- one of four motivational lines.

Administrators manage users and campaigns, import users in bulk, send test surveys and export the responses as CSV.

This project models the server's decision logic as pure functions over an abstract store. The SQLite database, the Twilio gateway, node-cron and the clock are modelled as follows:

- **The store** (`Database.Store`) holds the four tables users, campaigns, survey_responses and sms_logs as sequences in insertion order. It also holds the next id of each table. `Database.Valid` collects the schema's constraints:
  - scores are in 1..10;
  - (user, campaign, response date) is unique;
  - phone numbers are unique;
  - ids are distinct and below the next id.
- **A day** is an integer day number. **`today`** is SQLite's `date('now')`, passed in.
- **The SMS gateway** is an oracle. A `Delivery` is either `Sent(sid)` or `Failed(error)`. The daily run takes one such answer per (user, campaign) pair.
- **The request body** becomes `Option` values. `None` stands for a missing or `null` field, and also for `""` where the handler tests the field's truthiness; where it stores the value as given (`PUT /campaigns/:id`, `PUT /users/:id`), `""` stays `Some("")`. A query parameter such as `campaign_id` is a string, so `None` is an absent or empty one and even `"0"` counts as given. A `Json` value models a JSON score, which may be a non-integer number or a string.

Modules follow the source files:

| module | source |
|---|---|
| `Base`, `Text` | `Option`, `Result`, filtering and sums; `String.split`, `join`, `trim` and number rendering |
| `Database` | `src/database/index.js`: schema, lookups, inserts, the weekly sums |
| `ReplyGrammar` | `parseSmsResponse` and JavaScript `parseInt` |
| `Feedback` | the mean to one decimal, the four tiers and the two feedback templates |
| `SmsService` | `src/services/smsService.js`: survey prompt, send attempts and their log rows |
| `Webhooks` | `src/routes/webhooks.js`: delivery status and SMS replies |
| `Responses` | `src/routes/responses.js`: web submission and paged listing |
| `Scheduler` | `src/services/scheduler.js`: the daily run, test sends, next run time, start and stop |
| `Campaigns`, `Users` | CRUD validation, guards and the active-campaign order |
| `Csv`, `Admin` | `src/routes/admin.js`: bearer check, test SMS, bulk import and CSV export, with a CSV reader (section 2 of RFC 4180) to check rows against |

The mean of three integer scores is `total / 3`. Its fraction is .0, .33… or .66…, so `toFixed(1)` gives `(10 * total + 1) div 3` tenths. It never crosses a tier boundary. The tiers are therefore decided on the integer total: at least 24, 18 or 12, or below. No floating point is needed.

## Model

| member | source | states |
|---|---|---|
| Text.TrimSpec | src/routes/webhooks.js:140 | `trim` leaves no leading or trailing white space and changes nothing in an already trimmed text |
| Text.JoinSplit | src/routes/webhooks.js:140-150 | joining the pieces of `split(sep)` with `sep` gives back the original text |
| Text.SplitJoin | src/routes/webhooks.js:140-150 | splitting a join of separator-free pieces gives back exactly those pieces |
| Text.DecimalValueShowNat | src/routes/webhooks.js:179-182 | the decimal rendering of a number reads back as that number |
| ReplyGrammar.DigitRun | src/routes/webhooks.js:147-149 | `parseInt` reads the longest prefix of digits valid in the radix and stops at the first other character |
| ReplyGrammar.ParseIntShowNat | src/routes/webhooks.js:147-149 | `parseInt` of a rendered positive number followed by a non-digit is that number |
| ReplyGrammar.ExampleTrailingGarbage | src/routes/webhooks.js:147 | `parseInt("8x")` is 8: trailing characters after the digits are ignored |
| ReplyGrammar.ExampleHexadecimal | src/routes/webhooks.js:145-167 | `parseInt("0xA")` is 10: a hexadecimal prefix is honoured, and the reply "0xA,5,5" is accepted as scores 10, 5, 5 without free text |
| ReplyGrammar.ParseFields | src/routes/webhooks.js:142-167 | fewer than three parts is exactly "Not enough values"; an accepted reply has every score in 1..10 and the rejoined free text of parts 3 onwards |
| ReplyGrammar.Parse | src/routes/webhooks.js:138-171 | fewer than three comma-separated parts is exactly "Not enough values"; accepted scores lie in 1..10; accepted free text is never empty |
| ReplyGrammar.ParseFieldsAccepts | src/routes/webhooks.js:147-167 | three parts whose `parseInt` values lie in 1..10 are accepted with exactly those scores |
| ReplyGrammar.ParseFormat | src/routes/webhooks.js:138-171 | every well-formed reply, written as `j,a,m[,text]`, parses back to itself |
| ReplyGrammar.ParseNormalises | src/routes/webhooks.js:138-171 | what the parser accepts is well-formed, and writing it out and parsing again gives the same result |
| ReplyGrammar.AcceptedFreeTextCanonical | src/routes/webhooks.js:150 | accepted free text is trimmed and has no white space around any comma |
| ReplyGrammar.ExampleWithFreeText | src/routes/webhooks.js:138-171 | "8,7,9,Great day!" parses to scores 8, 7, 9 with free text "Great day!" |
| ReplyGrammar.ExampleTooFewFields | src/routes/webhooks.js:142-145 | "8,7" and "" are rejected as "Not enough values" |
| ReplyGrammar.ExampleNotNumeric | src/routes/webhooks.js:153-155 | "a,b,c" is rejected as "Invalid score format" |
| ReplyGrammar.ExampleOutOfRange | src/routes/webhooks.js:157-159 | "11,5,5" is rejected as out of range |
| Feedback.MeanTenths | src/routes/webhooks.js:176-177 | the displayed mean in tenths is within a third of a tenth of total/3 |
| Feedback.MeanTenthsNearest | src/routes/webhooks.js:176-177 | every other tenth lies strictly farther from total/3: this is the one decimal `toFixed(1)` shows |
| Feedback.ReadShowTenths | src/routes/webhooks.js:196 | `parseFloat` reads the rendered one-decimal mean back as the same number of tenths |
| Feedback.ReadAverageText | src/routes/webhooks.js:176-196 | `parseFloat(total/3 toFixed(1))` gives the rounded mean in tenths, negative totals included |
| Feedback.TierByTotal | src/routes/webhooks.js:195-206 | the tier chosen from the rounded mean (8, 6, 4) is the tier of the integer total (24, 18, 12) |
| Feedback.MessageInjective | src/routes/webhooks.js:195-206 | the four motivational lines are pairwise distinct, so the text identifies the tier |
| Feedback.ExampleBoundaryEight | src/routes/webhooks.js:197-200 | total 24 shows "8.0" and is thriving; total 23 shows "7.7" and is on track |
| Feedback.ExampleBoundaryFour | src/routes/webhooks.js:201-205 | total 12 shows "4.0" and says keep going; total 11 shows "3.7" and is a tough day |
| Feedback.WebhookFeedbackLines | src/routes/webhooks.js:174-193 | the reply feedback's lines are the three scores out of 10, the mean, the three weekly totals (absent read as 0) and the tier's line |
| Feedback.ServiceFeedbackLines | src/services/smsService.js:125-144 | the service feedback's lines are the same, with the weekly totals printed as the raw SQL sums |
| Feedback.TemplatesAgree | src/services/smsService.js:125-157 | when all three totals exist, the two templates differ only in their two headings, and their motivational lines agree |
| Feedback.ComposeRoundTrip | src/routes/webhooks.js:179-190 | splitting the feedback on line breaks gives back its lines followed by the lines of the tier's message |
| Database.CreateTables | src/database/index.js:31-105 | creating the tables yields a store and leaves an existing store as it is |
| Database.CreateTablesIdempotent | src/database/index.js:31-105 | creating the tables twice is creating them once, and the result is valid exactly when the input was |
| Database.StoredScoresChecked | src/database/index.js:61-63 | every stored response has its three scores in 1..10 |
| Database.FindUserByPhone | src/routes/webhooks.js:39-44 | the lookup by phone finds a stored user with that phone, or reports that no user has it |
| Database.InsertUserRefusedIffInvalid | src/database/index.js:34-42 | on a valid store, a user insert succeeds exactly when the store with that user appended (is_active 1, the next id) is still valid: the UNIQUE phone refuses precisely the rows that would break the schema |
| Database.InsertUserValid | src/database/index.js:34-42 | a successful user insert keeps the store valid |
| Database.InsertResponseRefusedIffInvalid | src/database/index.js:56-69 | on a valid store, a response insert succeeds exactly when the store with that row appended is still valid: the score CHECKs and the UNIQUE (user, campaign, day) refuse precisely the rows that would break the schema |
| Database.InsertResponseValid | src/database/index.js:56-69 | a successful response insert keeps the store valid |
| Database.AppendLogValid | src/database/index.js:72-86 | a log insert keeps the store valid |
| Database.SqlSum | src/routes/responses.js:51-60 | a SQL SUM is NULL exactly over no rows |
| Database.WindowRows | src/routes/responses.js:51-60 | the week's window holds exactly that user's rows (of that campaign, when given) dated on or after today minus 7 |
| Database.WeeklySumsAtLeast | src/routes/responses.js:51-60 | each weekly sum of checked rows is present and at least any one row's score |
| Database.CampaignWeekIncludes | src/routes/responses.js:51-60 | a response dated within the week counts towards its campaign's weekly sums |
| Database.JoinRow | src/routes/responses.js:73-89 | the join yields a row exactly when the response's user and campaign both exist |
| SmsService.BaseUrl | src/services/smsService.js:120 | BASE_URL when set and non-empty, otherwise 'http://localhost:3001' |
| SmsService.SurveyTextPromises | src/services/smsService.js:108-123 | the prompt carries the survey link and a sample reply, and that sample parses to scores 8, 7, 9 with its free text |
| SmsService.LogAttemptRow | src/services/smsService.js:45-65 | the store gains exactly one log row, with the next id, and nothing else changes; the result is a success exactly when delivery succeeded, and the logged row agrees with it: 'sent' with the message and the returned sid, or 'failed' with the placeholder text and the returned error |
| SmsService.SendPrompt | src/services/smsService.js:23-66 | every attempt appends exactly one log row for that user and campaign; it is 'sent' exactly when the user and campaign exist and the gateway delivered |
| SmsService.SendSurvey | src/services/smsService.js:23-66 | success exactly when the user and campaign exist and the gateway delivered; one log row either way, holding the survey text on success |
| SmsService.SendFeedback | src/services/smsService.js:68-106 | every feedback send appends exactly one 'feedback' log row, 'sent' or 'failed' as the gateway answered |
| SmsService.SendPromptValid | src/services/smsService.js:45-62 | a send attempt keeps the store valid |
| Webhooks.MarkStatus | src/routes/webhooks.js:15-18 | every log row with the sid gets the new status and delivery time; every other row is unchanged |
| Webhooks.SmsStatus | src/routes/webhooks.js:6-27 | a missing MessageSid is a 400 with the store unchanged; otherwise `updated` holds exactly when some row has that sid, only the status fields of matching rows change, and delivered_at is set only for 'delivered' |
| Webhooks.SmsStatusValid | src/routes/webhooks.js:15-18 | a status update keeps the store valid |
| Webhooks.SmsReply | src/routes/webhooks.js:30-135 | 400 exactly when From or Body is missing; an unknown sender or no active campaign leaves the store unchanged; otherwise the reply is recorded against the latest-starting active campaign |
| Webhooks.Record | src/routes/webhooks.js:63-129 | invalid exactly when the parse fails, which appends one 'invalid' log row only; already responded leaves the store unchanged; otherwise exactly one response row dated today and one 'processed' log row are appended |
| Webhooks.SmsReplyValid | src/routes/webhooks.js:30-135 | handling a reply keeps the store valid, so there is still at most one response per user, campaign and day |
| Webhooks.RecordedOnce | src/routes/webhooks.js:97-101 | after a processed reply, the new row is the only one for its user, campaign and day |
| Webhooks.RecordFeedback | src/routes/webhooks.js:104-116 | the answer to a processed reply is the feedback for the parsed scores and the campaign's week after the insert |
| Webhooks.ProcessedWeekIncludesReply | src/routes/webhooks.js:104-113 | the weekly totals sent back include the reply just stored, so each is at least the submitted score |
| Webhooks.RecordNeverFails | src/routes/webhooks.js:97-101 | the insert after the duplicate check cannot fail on the uniqueness constraint |
| Responses.Submit | src/routes/responses.js:7-95 | a falsy id or score is "Missing required fields" (a 0 score included); a non-integer or out-of-range score is a 400; both leave the store unchanged; a response for that user, campaign and day is 409 with the store unchanged |
| Responses.Accept | src/routes/responses.js:31-89 | 409 exactly when a response exists today; otherwise one row dated today is inserted, the feedback for its campaign's week is sent, and the joined row is returned |
| Responses.SubmitValid | src/routes/responses.js:7-95 | a submission keeps the store valid |
| Responses.SubmittedRow | src/routes/responses.js:44-60 | after a submission the new row is stored, and each weekly total is at least the score just submitted |
| Responses.Listing | src/routes/responses.js:116-131 | every listed row is a stored response matching the filters, and there are no more rows than matching responses |
| Responses.ListingComplete | src/routes/responses.js:116-131 | when every matching response still has its user and campaign, the listing has one row per matching response |
| Responses.Page | src/routes/responses.js:130-131 | the page holds min(limit, rows remaining after the offset) rows, or all remaining rows for a negative limit, with a negative offset read as 0; its i-th row is the row at offset + i |
| Responses.List | src/routes/responses.js:98-157 | `total` counts the matching responses whatever the page; `hasMore` holds exactly when offset + limit < total; the page holds at most `limit` matching rows |
| Responses.HasMoreMeansRowsRemain | src/routes/responses.js:143-151 | when no join row is missing, `hasMore` says exactly that rows remain after the page |
| Scheduler.ActiveCampaigns | src/services/scheduler.js:39-43 | exactly the stored campaigns that are active and whose date range includes today |
| Scheduler.ActiveUsers | src/services/scheduler.js:51-53 | exactly the stored users that are active |
| Scheduler.EligibleSpec | src/services/scheduler.js:61-77 | a (campaign, user) pair is attempted exactly when the campaign is active today, the user is active and no response exists for that pair today; there are at most campaigns times users such pairs |
| Scheduler.SendDailySurveys | src/services/scheduler.js:34-105 | no active campaign or no active user sends nothing and changes nothing; otherwise every eligible pair is attempted once in campaign-major order, the sent count is the number of delivered attempts, and sent + failed is the number of eligible pairs |
| Scheduler.SendAllLogs | src/services/scheduler.js:80-96 | the i-th new log row belongs to the i-th attempted pair |
| Scheduler.SendAllValid | src/services/scheduler.js:61-98 | the daily run keeps the store valid |
| Scheduler.SendTestSurvey | src/services/scheduler.js:107-123 | a test send skips the eligibility check; it succeeds exactly when the user and campaign exist and the gateway delivered, and the store changes as for a survey send |
| Scheduler.NextScheduledTime | src/services/scheduler.js:125-139 | the next run is 7:00 today when now is no later than 7:00 (to the second), otherwise 7:00 tomorrow; it lies within the next day, and the whole minutes until it are in 0..1439 |
| Scheduler.Start | src/services/scheduler.js:12-25 | starting schedules a new job and makes it the current one, leaving earlier jobs as they were |
| Scheduler.Stop | src/services/scheduler.js:27-32 | with no current job nothing changes; otherwise exactly the current job is stopped |
| Scheduler.StartTwiceLeaksFirst | src/services/scheduler.js:12-32 | after two starts and a stop, the first job is still scheduled |
| Campaigns.Create | src/routes/campaigns.js:80-121 | 400 exactly when the name or a date is missing or unreadable, or start is not before end; a created campaign has start before end, is active and takes the next id |
| Campaigns.CreateValid | src/routes/campaigns.js:109-112 | creating a campaign keeps the store valid |
| Campaigns.Update | src/routes/campaigns.js:124-145 | 404 exactly when the id is absent; a missing name or date on an existing campaign is a 500 (NOT NULL); otherwise name, dates and is_active are replaced and nothing else changes |
| Campaigns.Delete | src/routes/campaigns.js:148-176 | 400 exactly when the campaign has a response; otherwise 404 when absent; a deletion removes exactly the campaigns with that id |
| Campaigns.RemoveOne | src/routes/campaigns.js:165-171 | with distinct ids, deleting a stored campaign removes exactly one row |
| Campaigns.DeleteValid | src/routes/campaigns.js:148-176 | deleting a campaign keeps the store valid |
| Campaigns.SortByStart | src/routes/campaigns.js:181-186 | the sorted list is a permutation of its input |
| Campaigns.SortByStartSorted | src/routes/campaigns.js:181-186 | the sorted list is in ascending start order |
| Campaigns.ActiveList | src/routes/campaigns.js:179-193 | the active list holds exactly the active campaigns whose range includes today, each as often as stored |
| Campaigns.ActiveListSorted | src/routes/campaigns.js:181-186 | the active list is in ascending start order |
| Campaigns.LatestActive | src/routes/webhooks.js:47-53 | the campaign a reply is recorded against is active today and starts no earlier than any other active campaign; there is none exactly when no campaign is active |
| Users.MatchPhone | src/routes/users.js:82-85 | the phone check accepts exactly the numbers the pattern `^\+?[1-9]\d{1,14}$` describes |
| Users.PhoneAccepted | src/routes/users.js:82-85 | numbers such as +14155550123, 14155550123 and 12 are accepted |
| Users.PhoneRefused | src/routes/users.js:82-85 | the empty text, a lone '+', one digit, a leading 0, 16 digits, a space and a doubled '+' are refused |
| Users.Create | src/routes/users.js:73-104 | a missing phone or one failing the pattern is a 400, and a taken phone a 409, all with the store unchanged; a new user gets name null when absent and the default time zone |
| Users.CreateValid | src/routes/users.js:87-90 | creating a user keeps the store valid |
| Users.CreateTwiceConflicts | src/routes/users.js:87-90 | creating the same phone a second time is a 409 |
| Users.SetProfile | src/routes/users.js:112-119 | the user with that id gets exactly the given name, time zone and is_active (absent ones become null); ids, phones and every other user are unchanged |
| Users.Update | src/routes/users.js:107-128 | 404 exactly when the id is absent, with the store unchanged; otherwise the profile is overwritten and the updated user is returned |
| Users.Delete | src/routes/users.js:131-159 | 400 exactly when the user has a response; otherwise 404 when absent; a deletion removes exactly the users with that id |
| Users.DeleteValid | src/routes/users.js:131-159 | deleting a user keeps the store valid |
| Users.UserDashboard | src/routes/users.js:162-197 | not found exactly when the id is absent; otherwise the dashboard is that user's, and its weekly totals are the user's sums over the last seven days, all campaigns together |
| Users.DashboardIncludes | src/routes/users.js:183-197 | for a known user, every response of theirs dated within the week shows in the dashboard's weekly totals: each total is present and at least that response's score |
| Users.UserWeekIncludes | src/routes/users.js:185-197 | every response of the user within the week counts towards the dashboard's weekly sums |
| Users.UserWeekCoversCampaign | src/routes/users.js:185-197 | the dashboard's weekly sums over all campaigns are at least those of any one campaign |
| Csv.ReadQuotedDoubled | src/routes/admin.js:216 | a text with its quotes doubled and a closing quote reads back as that text |
| Csv.ReadLine | src/routes/admin.js:214-217 | a line of readable fields reads back as exactly those fields' texts, in order |
| Admin.AdminAuth | src/routes/admin.js:8-22 | 401 "Authorization header required" exactly when the header is missing or does not start with "Bearer "; access exactly when the rest equals ADMIN_PASSWORD, or "admin123" when that is unset or empty |
| Admin.DefaultPasswordOpens | src/routes/admin.js:10 | without ADMIN_PASSWORD, exactly the token "admin123" is accepted; any other is a wrong password |
| Admin.TestSms | src/routes/admin.js:86-103 | 400 exactly when user_id or campaign_id is missing or falsy, with the store unchanged; otherwise one survey attempt is logged, successful exactly when the user and campaign exist and the gateway delivered |
| Admin.ImportUsers | src/routes/admin.js:137-184 | 400 exactly when `users` is not an array or is empty, with the store unchanged; otherwise the loop's tally is returned, or a 500 when an entry aborted it |
| Admin.ImportCounts | src/routes/admin.js:148-173 | after a completed import, success + failed is the number of entries, each failure left exactly one error, and success counts the entries with a phone |
| Admin.ImportValid | src/routes/admin.js:164-167 | importing keeps the store valid, so no phone is stored twice |
| Admin.ImportKeepsUsers | src/routes/admin.js:164-167 | the users already stored keep their place and fields |
| Admin.ImportKnownPhone | src/routes/admin.js:164-169 | an entry whose phone is already stored counts as a success and changes nothing |
| Admin.ImportedPhonesStored | src/routes/admin.js:164-169 | after a completed import, every entry's phone is stored |
| Admin.ImportSkipsPhonePattern | src/routes/admin.js:158-167 | the import checks no phone pattern: "abc" is refused by user creation but stored by the import |
| Admin.NullEntryAborts | src/routes/admin.js:154-173 | a `null` entry aborts the whole import, where the corrected loop counts it as one failure |
| Admin.ImportCorrectedCounts | src/routes/admin.js:154-173 | with the catch block reading the entry safely, every import completes with success + failed equal to the number of entries; where the written loop completes, the two agree |
| Admin.ExportRows | src/routes/admin.js:191-210 | every exported row is a stored response, of the given campaign when `campaign_id` is given, `"0"` included |
| Admin.ExportComplete | src/routes/admin.js:191-210 | when no join row is missing, one row is exported per response of the given campaign (campaign 0 included), or per response when `campaign_id` is absent or empty |
| Admin.HeaderReads | src/routes/admin.js:214 | the header line reads back as the ten column titles and holds no line break |
| Admin.ExportCsv | src/routes/admin.js:214-221 | the export starts with the header line and a line break |
| Admin.ExportLines | src/routes/admin.js:214-221 | when no field holds a line break, the export's lines are the header and then one row per exported response |
| Admin.CsvRowSingleLine | src/routes/admin.js:215-216 | a row whose fields hold no line break is itself one line |
| Admin.QuoteInNameBreaksRow | src/routes/admin.js:216 | a user name `A"B` makes the row unreadable as CSV, because only the free text has its quotes doubled |
| Admin.CsvRecordReads | src/routes/admin.js:214-217 | the corrected row, with every quoted field's quotes doubled, reads back as its ten values |
| Admin.CsvRowAgrees | src/routes/admin.js:216 | the written row and the corrected row are the same whenever no enclosed field holds a quote |

## Left out

- Twilio, node-cron and moment-timezone are not modelled. The gateway is an oracle. "Now" is the local time of day in milliseconds, in the configured zone. Daylight-saving changes are ignored.
- The `delay(100)` pause between sends in the daily run is left out; it has no effect on the outcome.
- Database failures are left out: SQLite driver errors, a full disk, and each handler's `catch` that answers 500 after an unexpected error. The only database errors modelled are the schema's own constraint violations.
- Ties in `ORDER BY submitted_at DESC` and `ORDER BY start_date` are not modelled. The listings take the newest stored row first, and sorting is by start date only.
- Campaign dates are day numbers. `new Date(...)` parsing is reduced to a date that is either readable or not.
- Query parameters are taken as already-parsed integers: a NaN `limit` or `offset` and a non-numeric id are left out.
- Text lengths in UTF-16 units are not modelled.
- The float averages are left out: the analytics summary (src/routes/responses.js:186-243), the campaign statistics (src/routes/campaigns.js:38-63), the user dashboard averages (src/routes/users.js:184-208) and the per-user weekly view (src/routes/users.js:47-56).
- UserDashboard: the answer holds the user and the weekly sums only. The `recentResponses` list (src/routes/users.js:172-181), the weekly `total_days` count and the all-time `total_responses`, `first_response` and `last_response` (src/routes/users.js:184-208) are not modelled.
- The list and single-item GET routes (`GET /users`, `GET /users/:id`, `GET /campaigns`, `GET /campaigns/:id`, `GET /responses/:id`) are not modelled.
- The admin dashboard and status routes, and the JSON export format with its `exported_at`, are not modelled.
- The web service `getSmsStats` is not modelled.
- The survey and dashboard URLs built inside `sendSurveySms` and `sendFeedbackSms` are never sent, and are not modelled.
- `Scheduler.SendDailySurveys` takes the survey text as built once from the base URL. In the source, each send rebuilds the same text.
- Feedback.ReadTenths models `parseFloat` only on the shape that `toFixed(1)` produces.
- The `weeklyTotals ||` zero fallback in `POST /responses` is unreachable, because a SUM query always returns a row. It is not modelled separately.
- The rendering of response dates, `submitted_at` and entries in error messages (`JSON.stringify`) are parameters of the model.
- A non-string phone number in an import entry is not modelled. Neither is an entry that is a primitive value rather than an object: both are taken as an entry with that field absent.
- Concurrency between the daily run and test sends is not modelled. The model is sequential.
- Responses.Listing: the listing's ensures states membership and a bound; the exact count is stated separately by Responses.ListingComplete, under its precondition that every join row exists.
- Admin.ExportCsv: its ensures states only the header. The line structure is stated by Admin.ExportLines, under its precondition that no field holds a line break.

## Findings

| source | as written | input that shows it | evidently intended | confidence | as-written member | corrected member |
|---|---|---|---|---|---|---|
| src/routes/admin.js:154-173 | a `null` element throws during destructuring; the per-entry catch then reads `user.phone_number` of `null` and throws again, so the whole import answers 500 and the tally is lost | `{"users": [null]}` | the entry is counted as one failure with one error string, and the loop goes on | not executed | Admin.NullEntryAborts | Admin.ImportCorrectedCounts |
| src/routes/admin.js:216 | only the free text has its quotes doubled; the user name, phone, campaign name, date and `submitted_at` are put between quotes as they are | a user named `A"B` | every quoted field has its quotes doubled, so each row reads back as its ten values | not executed | Admin.QuoteInNameBreaksRow | Admin.CsvRecordReads |
