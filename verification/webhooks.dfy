/** The two gateway callbacks: the delivery-status update of sms_logs rows,
    and the inbound reply, which is matched to a user by phone number and to
    the latest-starting active campaign, parsed, stored as the day's response
    and answered with the feedback text. Each handler is a transition of the
    store paired with the JSON outcome. */
module Webhooks {
  import opened Base
  import opened Database
  import opened ReplyGrammar
  import opened Feedback
  import opened Campaigns

  // ---- POST /twilio/sms-status ----

  datatype StatusOutcome = StatusBadRequest | StatusRecorded(updated: bool)

  /** Every log row carrying the sid takes the new status and delivery time. */
  function MarkStatus(logs: seq<LogRow>, sid: string, status: Option<string>, deliveredAt: Option<int>): (r: seq<LogRow>)
    ensures |r| == |logs|
    ensures forall i :: 0 <= i < |r| ==>
              r[i] == if logs[i].sid == Some(sid) then logs[i].(status := status, deliveredAt := deliveredAt) else logs[i]
  {
    if |logs| == 0 then []
    else [if logs[0].sid == Some(sid) then logs[0].(status := status, deliveredAt := deliveredAt) else logs[0]]
         + MarkStatus(logs[1..], sid, status, deliveredAt)
  }

  /** `UPDATE sms_logs SET status = ?, delivered_at = ? WHERE twilio_sid = ?`,
      with the delivery time set only for the status 'delivered'. */
  function SmsStatus(s: Store, sid: Option<string>, status: Option<string>, now: int): (r: (Store, StatusOutcome))
    ensures r.1.StatusBadRequest? <==> !PresentText(sid)
    ensures r.1.StatusBadRequest? ==> r.0 == s
    ensures r.1.StatusRecorded? ==>
              && r.0 == s.(logs := r.0.logs)
              && |r.0.logs| == |s.logs|
              && (r.1.updated <==> exists row :: row in s.logs && row.sid == sid)
              && forall i :: 0 <= i < |s.logs| ==>
                   r.0.logs[i] == if s.logs[i].sid == sid
                                  then s.logs[i].(status := status,
                                                  deliveredAt := if status == Some("delivered") then Some(now) else None)
                                  else s.logs[i]
  {
    if !PresentText(sid) then (s, StatusBadRequest)
    else
      var deliveredAt := if status == Some("delivered") then Some(now) else None;
      var changes := Count(s.logs, (row: LogRow) => row.sid == sid);
      CountPositive(s.logs, (row: LogRow) => row.sid == sid);
      (s.(logs := MarkStatus(s.logs, sid.value, status, deliveredAt)), StatusRecorded(changes > 0))
  }

  /** A status update keeps the schema's guarantees: it changes neither ids nor rows' count. */
  lemma SmsStatusValid(s: Store, sid: Option<string>, status: Option<string>, now: int)
    requires Valid(s)
    ensures Valid(SmsStatus(s, sid, status, now).0)
  {
    var t := SmsStatus(s, sid, status, now).0;
    forall i | 0 <= i < |t.logs|
      ensures t.logs[i].id == s.logs[i].id
    {
    }
  }

  // ---- POST /twilio/sms-reply ----

  datatype ReplyOutcome =
    | ReplyBadRequest       // 400: From and Body are required
    | UnknownSender         // 200 'User not found'
    | NoActiveCampaign      // 200 'No active campaign'
    | InvalidFormat         // 200, type 'invalid_format'
    | AlreadyResponded      // 200, type 'already_responded'
    | Processed(message: string)  // 200, type 'success', with the feedback text
    | ReplyServerError      // 500
  {
    /** The `message` field of the JSON answer, when there is one. */
    function Text(): Option<string> {
      match this
      case UnknownSender => Some("User not found")
      case NoActiveCampaign => Some("No active campaign")
      case InvalidFormat => Some(InvalidFormatText)
      case AlreadyResponded => Some(AlreadyRespondedText)
      case Processed(m) => Some(m)
      case _ => None
    }
  }

  const InvalidFormatText: string :=
    "\U{274C} Invalid format. Please reply with: \"joy,achievement,meaningfulness,free_text\" (e.g., \"8,7,9,Great day!\")"

  const AlreadyRespondedText: string :=
    "\U{2705} You've already responded today! Thank you for participating."

  /** The reply handler. `today` is `date('now')`; `sid` is the inbound
      message's MessageSid, stored as it came (NULL when absent). A known
      sender with an active campaign goes on to `Record`. */
  function SmsReply(s: Store, from: Option<string>, body: Option<string>, sid: Option<string>, today: int): (r: (Store, ReplyOutcome))
    ensures r.1.ReplyBadRequest? <==> !PresentText(from) || !PresentText(body)
    ensures r.1.ReplyBadRequest? || r.1.UnknownSender? || r.1.NoActiveCampaign? ==> r.0 == s
    ensures r.1.UnknownSender? <==> PresentText(from) && PresentText(body) && FindUserByPhone(s.users, from.value).None?
    ensures r.1.NoActiveCampaign? <==> PresentText(from) && PresentText(body)
                                       && FindUserByPhone(s.users, from.value).Some?
                                       && LatestActive(s.campaigns, today).None?
    ensures PresentText(from) && PresentText(body) && FindUserByPhone(s.users, from.value).Some?
            && LatestActive(s.campaigns, today).Some? ==>
              r == Record(s, FindUserByPhone(s.users, from.value).value.id, LatestActive(s.campaigns, today).value.id,
                          body.value, sid, today)
  {
    if !PresentText(from) || !PresentText(body) then (s, ReplyBadRequest)
    else
      var user := FindUserByPhone(s.users, from.value);
      if user.None? then (s, UnknownSender)
      else
        var campaign := LatestActive(s.campaigns, today);
        if campaign.None? then (s, NoActiveCampaign)
        else Record(s, user.value.id, campaign.value.id, body.value, sid, today)
  }

  /** The reply of a known user while campaign `campaignId` is active: an
      unparsable body is logged as 'invalid'; a second reply on the same day
      changes nothing; otherwise the scores become the day's response, the
      body is logged as 'processed' and the feedback text is returned. */
  function Record(s: Store, userId: int, campaignId: int, body: string, sid: Option<string>, today: int): (r: (Store, ReplyOutcome))
    ensures r.1.InvalidFormat? || r.1.AlreadyResponded? || r.1.Processed?
    ensures r.1.InvalidFormat? <==> Parse(body).Err?
    ensures r.1.InvalidFormat? ==> r.0 == AppendLog(s, userId, campaignId, ReplyMessage, body, sid, "invalid", None)
    ensures r.1.AlreadyResponded? <==> Parse(body).Ok? && HasResponse(s.responses, userId, campaignId, today)
    ensures r.1.AlreadyResponded? ==> r.0 == s
    ensures r.1.Processed? ==>
              var reply := Parse(body).value;
              var row := Response(s.nextResponseId, userId, campaignId, today, reply.joy, reply.achievement,
                                  reply.meaningfulness, reply.freeText);
              var t := s.(responses := s.responses + [row], nextResponseId := s.nextResponseId + 1);
              r.0 == AppendLog(t, userId, campaignId, ReplyMessage, body, sid, "processed", None)
  {
    match Parse(body)
    case Err(_) => (AppendLog(s, userId, campaignId, ReplyMessage, body, sid, "invalid", None), InvalidFormat)
    case Ok(reply) =>
      if HasResponse(s.responses, userId, campaignId, today) then (s, AlreadyResponded)
      else
        match InsertResponse(s, userId, campaignId, today, reply.joy, reply.achievement, reply.meaningfulness, reply.freeText)
        case Err(_) => (s, ReplyServerError)
        case Ok((t, _)) =>
          (AppendLog(t, userId, campaignId, ReplyMessage, body, sid, "processed", None),
           Processed(ReplyFeedback(t, userId, campaignId, today, reply)))
  }

  /** The feedback text for the scores of `reply` and the campaign's week in `t`. */
  function ReplyFeedback(t: Store, userId: int, campaignId: int, today: int, reply: Reply): string {
    WebhookFeedback(reply.joy, reply.achievement, reply.meaningfulness, CampaignWeek(t, userId, campaignId, today))
  }

  /** A reply keeps the schema's guarantees. */
  lemma SmsReplyValid(s: Store, from: Option<string>, body: Option<string>, sid: Option<string>, today: int)
    requires Valid(s)
    ensures Valid(SmsReply(s, from, body, sid, today).0)
  {
    if PresentText(from) && PresentText(body) && FindUserByPhone(s.users, from.value).Some?
       && LatestActive(s.campaigns, today).Some? {
      RecordValid(s, FindUserByPhone(s.users, from.value).value.id, LatestActive(s.campaigns, today).value.id,
                  body.value, sid, today);
    }
  }

  lemma RecordValid(s: Store, userId: int, campaignId: int, body: string, sid: Option<string>, today: int)
    requires Valid(s)
    ensures Valid(Record(s, userId, campaignId, body, sid, today).0)
  {
    var r := Record(s, userId, campaignId, body, sid, today);
    if r.1.InvalidFormat? {
      AppendLogValid(s, userId, campaignId, ReplyMessage, body, sid, "invalid", None);
    } else if r.1.Processed? {
      var reply := Parse(body).value;
      InsertResponseValid(s, userId, campaignId, today, reply.joy, reply.achievement, reply.meaningfulness, reply.freeText);
      var t := InsertResponse(s, userId, campaignId, today, reply.joy, reply.achievement, reply.meaningfulness,
                              reply.freeText).value.0;
      AppendLogValid(t, userId, campaignId, ReplyMessage, body, sid, "processed", None);
    }
  }

  /** The answer to a processed reply is the feedback on exactly the parsed
      scores and the week's sums taken after the new row was stored. */
  lemma RecordFeedback(s: Store, userId: int, campaignId: int, body: string, sid: Option<string>, today: int)
    requires Record(s, userId, campaignId, body, sid, today).1.Processed?
    ensures var r := Record(s, userId, campaignId, body, sid, today);
            var reply := Parse(body).value;
            r.1.message == WebhookFeedback(reply.joy, reply.achievement, reply.meaningfulness,
                                           CampaignWeek(r.0, userId, campaignId, today))
  {
  }

  /** Once a reply is processed the sender has exactly one response for the
      day in that campaign, the one just recorded. */
  lemma RecordedOnce(s: Store, userId: int, campaignId: int, body: string, sid: Option<string>, today: int)
    requires Valid(s)
    requires Record(s, userId, campaignId, body, sid, today).1.Processed?
    ensures var t := Record(s, userId, campaignId, body, sid, today).0;
            forall i :: 0 <= i < |t.responses| && SameDay(t.responses[i], t.responses[|s.responses|])
                        ==> i == |s.responses|
  {
    RecordValid(s, userId, campaignId, body, sid, today);
  }

  /** After a processed reply the week's sums include the new scores, so
      none of them is below the score just given. */
  lemma ProcessedWeekIncludesReply(s: Store, userId: int, campaignId: int, body: string, sid: Option<string>, today: int)
    requires Valid(s)
    requires Record(s, userId, campaignId, body, sid, today).1.Processed?
    ensures var reply := Parse(body).value;
            var week := CampaignWeek(Record(s, userId, campaignId, body, sid, today).0, userId, campaignId, today);
            && week.joy.Some? && week.joy.value >= reply.joy
            && week.achievement.Some? && week.achievement.value >= reply.achievement
            && week.meaningfulness.Some? && week.meaningfulness.value >= reply.meaningfulness
  {
    var t := Record(s, userId, campaignId, body, sid, today).0;
    RecordValid(s, userId, campaignId, body, sid, today);
    CampaignWeekIncludes(t, t.responses[|s.responses|], today);
  }

  /** The 500 path of the reply handler is never taken: the parser only
      accepts scores the CHECKs allow, and the duplicate test runs first. */
  lemma RecordNeverFails(s: Store, userId: int, campaignId: int, body: string, sid: Option<string>, today: int)
    ensures !Record(s, userId, campaignId, body, sid, today).1.ReplyServerError?
  {
  }
}
