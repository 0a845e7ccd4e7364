/** The web submission path and the paged listing of responses. The JSON
    body's scores are JSON values, so that falsiness and `Number.isInteger`
    are decided as JavaScript decides them; ids are integers or absent. */
module Responses {
  import opened Base
  import opened Database
  import opened Feedback
  import opened SmsService

  /** A JSON value as the body parser delivers it; `Absent` is `undefined`. */
  datatype Json = Absent | Null | JsonBool(b: bool) | JsonNumber(x: real) | JsonText(s: string) | Composite

  /** JavaScript truthiness; JSON cannot carry NaN. */
  predicate Truthy(v: Json) {
    match v
    case Absent => false
    case Null => false
    case JsonBool(b) => b
    case JsonNumber(x) => x != 0.0
    case JsonText(t) => |t| > 0
    case Composite => true
  }

  /** `score < 1 || score > 10 || !Number.isInteger(score)` does not hold:
      only a number can be an integer, so text and booleans are refused. */
  predicate ScoreAccepted(v: Json) {
    v.JsonNumber? && 1.0 <= v.x <= 10.0 && v.x == v.x.Floor as real
  }

  datatype SubmitOutcome =
    | SubmitBadRequest(error: string)        // 400
    | Conflict                               // 409
    | Submitted(response: Option<Joined>)    // 201; `response` is absent when the join finds no row
    | SubmitServerError                      // 500

  const MissingFields: string :=
    "Missing required fields: user_id, campaign_id, joy_score, achievement_score, meaningfulness_score"

  const BadScores: string := "Scores must be integers between 1 and 10"

  /** `POST /responses`. `gateway` is what the SMS gateway answers to the
      feedback message; its outcome is logged but does not change the answer. */
  function Submit(s: Store, userId: Option<int>, campaignId: Option<int>, joy: Json, achievement: Json,
                  meaningfulness: Json, freeText: Option<string>, today: int, gateway: Delivery): (r: (Store, SubmitOutcome))
    ensures r.1.SubmitBadRequest? ==> r.0 == s
    ensures r.1 == SubmitBadRequest(MissingFields) <==>
              !PresentId(userId) || !PresentId(campaignId) || !Truthy(joy) || !Truthy(achievement) || !Truthy(meaningfulness)
    ensures r.1 == SubmitBadRequest(BadScores) <==>
              && PresentId(userId) && PresentId(campaignId) && Truthy(joy) && Truthy(achievement) && Truthy(meaningfulness)
              && !(ScoreAccepted(joy) && ScoreAccepted(achievement) && ScoreAccepted(meaningfulness))
    ensures r.1.Conflict? || r.1.Submitted? ==>
              && PresentId(userId) && PresentId(campaignId)
              && ScoreAccepted(joy) && ScoreAccepted(achievement) && ScoreAccepted(meaningfulness)
              && (r.1.Conflict? <==> HasResponse(s.responses, userId.value, campaignId.value, today))
    ensures r.1.Conflict? ==> r.0 == s
    ensures !r.1.SubmitServerError?
  {
    if !PresentId(userId) || !PresentId(campaignId) || !Truthy(joy) || !Truthy(achievement) || !Truthy(meaningfulness) then
      (s, SubmitBadRequest(MissingFields))
    else if !(ScoreAccepted(joy) && ScoreAccepted(achievement) && ScoreAccepted(meaningfulness)) then
      (s, SubmitBadRequest(BadScores))
    else
      Accept(s, userId.value, campaignId.value, joy.x.Floor, achievement.x.Floor, meaningfulness.x.Floor,
            OrNull(freeText), today, gateway)
  }

  /** The tail of a valid submission: the duplicate test, the insert, the
      week's sums and the feedback message through the SMS service. */
  function Accept(s: Store, userId: int, campaignId: int, joy: int, achievement: int, meaningfulness: int,
                 freeText: Option<string>, today: int, gateway: Delivery): (r: (Store, SubmitOutcome))
    requires InScoreRange(joy) && InScoreRange(achievement) && InScoreRange(meaningfulness)
    ensures r.1.Conflict? || r.1.Submitted?
    ensures r.1.Conflict? <==> HasResponse(s.responses, userId, campaignId, today)
    ensures r.1.Conflict? ==> r.0 == s
    ensures r.1.Submitted? ==>
              var row := Response(s.nextResponseId, userId, campaignId, today, joy, achievement, meaningfulness, freeText);
              var t := s.(responses := s.responses + [row], nextResponseId := s.nextResponseId + 1);
              && r.0 == FeedbackSent(t, userId, campaignId, joy, achievement, meaningfulness, today, gateway)
              && r.1.response == JoinRow(t, row)
  {
    if HasResponse(s.responses, userId, campaignId, today) then (s, Conflict)
    else
      match InsertResponse(s, userId, campaignId, today, joy, achievement, meaningfulness, freeText)
      case Err(_) => (s, SubmitServerError)
      case Ok((t, id)) =>
        (FeedbackSent(t, userId, campaignId, joy, achievement, meaningfulness, today, gateway),
         Submitted(JoinRow(t, Response(id, userId, campaignId, today, joy, achievement, meaningfulness, freeText))))
  }

  /** The store after the feedback for the submitted scores and the
      campaign's week in `t` went to the SMS service. */
  function FeedbackSent(t: Store, userId: int, campaignId: int, joy: int, achievement: int, meaningfulness: int,
                        today: int, gateway: Delivery): Store {
    SendFeedback(t, userId, campaignId, joy, achievement, meaningfulness, CampaignWeek(t, userId, campaignId, today),
                 gateway).0
  }

  /** A submission keeps the schema's guarantees. */
  lemma SubmitValid(s: Store, userId: Option<int>, campaignId: Option<int>, joy: Json, achievement: Json,
                    meaningfulness: Json, freeText: Option<string>, today: int, gateway: Delivery)
    requires Valid(s)
    ensures Valid(Submit(s, userId, campaignId, joy, achievement, meaningfulness, freeText, today, gateway).0)
  {
    var r := Submit(s, userId, campaignId, joy, achievement, meaningfulness, freeText, today, gateway);
    if r.1.Submitted? {
      var u, c := userId.value, campaignId.value;
      var j, a, m := joy.x.Floor, achievement.x.Floor, meaningfulness.x.Floor;
      InsertResponseValid(s, u, c, today, j, a, m, OrNull(freeText));
      var t := InsertResponse(s, u, c, today, j, a, m, OrNull(freeText)).value.0;
      SendFeedbackValid(t, u, c, j, a, m, CampaignWeek(t, u, c, today), gateway);
    }
  }

  /** A stored submission adds exactly one response, dated today, with the
      submitted scores and the free text or NULL; and the feedback it sends
      carries week's sums that are each at least the score just given. */
  lemma SubmittedRow(s: Store, userId: int, campaignId: int, joy: int, achievement: int, meaningfulness: int,
                     freeText: Option<string>, today: int, gateway: Delivery)
    requires Valid(s)
    requires InScoreRange(joy) && InScoreRange(achievement) && InScoreRange(meaningfulness)
    requires Accept(s, userId, campaignId, joy, achievement, meaningfulness, freeText, today, gateway).1.Submitted?
    ensures var t := Accept(s, userId, campaignId, joy, achievement, meaningfulness, freeText, today, gateway).0;
            && |t.responses| == |s.responses| + 1 && t.responses[..|s.responses|] == s.responses
            && t.responses[|s.responses|] == Response(s.nextResponseId, userId, campaignId, today, joy, achievement,
                                                      meaningfulness, freeText)
            && var week := CampaignWeek(t, userId, campaignId, today);
               && week.joy.Some? && week.joy.value >= joy
               && week.achievement.Some? && week.achievement.value >= achievement
               && week.meaningfulness.Some? && week.meaningfulness.value >= meaningfulness
  {
    var row := Response(s.nextResponseId, userId, campaignId, today, joy, achievement, meaningfulness, freeText);
    var t := s.(responses := s.responses + [row], nextResponseId := s.nextResponseId + 1);
    InsertResponseValid(s, userId, campaignId, today, joy, achievement, meaningfulness, freeText);
    CampaignWeekIncludes(t, row, today);
    var u := Accept(s, userId, campaignId, joy, achievement, meaningfulness, freeText, today, gateway).0;
    assert u.responses == t.responses;
    assert CampaignWeek(u, userId, campaignId, today) == CampaignWeek(t, userId, campaignId, today);
  }

  // ---- GET /responses ----

  /** `WHERE sr.user_id = ? AND sr.campaign_id = ?`, each condition present
      only when its query parameter is. */
  predicate Selected(r: Response, userId: Option<int>, campaignId: Option<int>) {
    (userId.None? || r.userId == userId.value) && (campaignId.None? || r.campaignId == campaignId.value)
  }

  /** The joined rows of the selected responses, newest first. Rows are
      stored in submission order, and a later submission never carries an
      earlier `submitted_at`; equal timestamps are listed newest first too. */
  function Listing(s: Store, responses: seq<Response>, userId: Option<int>, campaignId: Option<int>): (rows: seq<Joined>)
    ensures |rows| <= Count(responses, (r: Response) => Selected(r, userId, campaignId))
    ensures forall j :: j in rows ==> j.response in responses && Selected(j.response, userId, campaignId)
  {
    if |responses| == 0 then []
    else
      var last := responses[|responses| - 1];
      var earlier := responses[..|responses| - 1];
      assert responses == earlier + [last];
      FilterAppend(earlier, [last], (r: Response) => Selected(r, userId, campaignId));
      var rest := Listing(s, earlier, userId, campaignId);
      if Selected(last, userId, campaignId) && JoinRow(s, last).Some? then [JoinRow(s, last).value] + rest else rest
  }

  /** `LIMIT ? OFFSET ?` as SQLite reads them: a negative offset counts as
      zero and a negative limit as no limit. */
  function Page<T>(rows: seq<T>, limit: int, offset: int): (page: seq<T>)
    ensures var start := if offset < 0 then 0 else offset;
            var remaining := if start >= |rows| then 0 else |rows| - start;
            && |page| == (if 0 <= limit < remaining then limit else remaining)
            && forall i :: 0 <= i < |page| ==> page[i] == rows[start + i]
  {
    var start := if offset < 0 then 0 else offset;
    if start >= |rows| then []
    else if limit < 0 || start + limit >= |rows| then rows[start..]
    else rows[start..start + limit]
  }

  datatype Pagination = Pagination(total: nat, limit: int, offset: int, hasMore: bool)

  /** `GET /responses` with the parsed `limit` (default 50) and `offset`
      (default 0). `total` counts the selected responses without the join,
      so it also counts responses whose user or campaign is gone. */
  function List(s: Store, userId: Option<int>, campaignId: Option<int>, limit: int, offset: int): (r: (seq<Joined>, Pagination))
    ensures r.1.total == Count(s.responses, (x: Response) => Selected(x, userId, campaignId))
    ensures r.1.hasMore <==> offset + limit < r.1.total
    ensures limit >= 0 ==> |r.0| <= limit
    ensures |r.0| <= r.1.total
    ensures forall j :: j in r.0 ==> j.response in s.responses && Selected(j.response, userId, campaignId)
  {
    var rows := Listing(s, s.responses, userId, campaignId);
    var total := Count(s.responses, (x: Response) => Selected(x, userId, campaignId));
    var page := Page(rows, limit, offset);
    (page, Pagination(total, limit, offset, offset + limit < total))
  }

  /** When every selected response still has its user and campaign, the
      listing holds exactly `total` rows, so `hasMore` says precisely that
      rows remain after the page. */
  lemma {:induction false} ListingComplete(s: Store, responses: seq<Response>, userId: Option<int>, campaignId: Option<int>)
    requires forall x :: x in responses && Selected(x, userId, campaignId) ==> JoinRow(s, x).Some?
    ensures |Listing(s, responses, userId, campaignId)| == Count(responses, (x: Response) => Selected(x, userId, campaignId))
  {
    if |responses| > 0 {
      var last := responses[|responses| - 1];
      var earlier := responses[..|responses| - 1];
      assert responses == earlier + [last];
      FilterAppend(earlier, [last], (r: Response) => Selected(r, userId, campaignId));
      ListingComplete(s, earlier, userId, campaignId);
    }
  }

  lemma HasMoreMeansRowsRemain(s: Store, userId: Option<int>, campaignId: Option<int>, limit: int, offset: int)
    requires forall x :: x in s.responses && Selected(x, userId, campaignId) ==> JoinRow(s, x).Some?
    requires limit >= 0 && offset >= 0
    ensures var rows := Listing(s, s.responses, userId, campaignId);
            List(s, userId, campaignId, limit, offset).1.hasMore <==> offset + limit < |rows|
  {
    ListingComplete(s, s.responses, userId, campaignId);
  }
}
