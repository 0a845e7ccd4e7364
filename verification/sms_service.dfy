/** The outbound half of the SMS service: the fixed survey prompt and the two
    senders, each of which looks the recipient up, hands one message to the
    SMS gateway and writes exactly one sms_logs row describing what happened.
    The gateway is an oracle: the caller supplies what it answered for this
    message, a provider sid or an error text (which also covers a client that
    was never initialised). */
module SmsService {
  import opened Base
  import opened Text
  import opened Database
  import opened ReplyGrammar
  import opened Feedback

  /** What the gateway answered for one message. */
  datatype Delivery = Sent(sid: string) | Failed(reason: string)

  /** `{ success: true, messageSid }` or `{ success: false, error }`. */
  datatype SendResult = SendOk(sid: string) | SendErr(message: string)

  const DefaultBaseUrl: string := "http://localhost:3001"

  /** `process.env.BASE_URL || 'http://localhost:3001'`. */
  function BaseUrl(env: Option<string>): (url: string)
    ensures |url| > 0
    ensures PresentText(env) ==> url == env.value
    ensures !PresentText(env) ==> url == "http://localhost:3001"
  {
    OrDefault(env, DefaultBaseUrl)
  }

  /** The sample answer the prompt shows. */
  const SampleFreeText: string := "Spent time with family"
  const SampleReply: string := "8,7,9," + SampleFreeText

  /** The prompt up to the opening quote of the sample answer: a heading
      between two glowing stars, the rating request and four keycap-numbered
      questions. */
  const SurveyHead: string :=
    "\U{1F31F} Daily Life Check-in \U{1F31F}\n\n"
    + "How was your day yesterday? Please rate each area (1-10):\n\n"
    + "1\U{FE0F}\U{20E3} Joy: How much joy did you get?\n"
    + "2\U{FE0F}\U{20E3} Achievement: How much achievement did you get?\n"
    + "3\U{FE0F}\U{20E3} Meaningfulness: How much meaningfulness did you get?\n"
    + "4\U{FE0F}\U{20E3} What influenced your ratings most? (free text)\n\n"
    + "Reply with your scores like: "

  const SurveyClosing: string := "\n\nThank you for participating! \U{1F64F}"

  /** `generateSurveyMessage`: the same text for every user and campaign. */
  function SurveyText(baseUrl: string): string {
    SurveyHead + "\"" + SampleReply + "\"\n\nOr visit: " + baseUrl + "/survey" + SurveyClosing
  }

  /** The prompt links to the survey page under the base URL and shows a
      sample answer that the reply parser accepts as written. */
  lemma SurveyTextPromises(baseUrl: string)
    ensures Contains(SurveyText(baseUrl), baseUrl + "/survey")
    ensures Contains(SurveyText(baseUrl), SampleReply)
    ensures Parse(SampleReply) == Ok(Reply(8, 7, 9, Some(SampleFreeText)))
  {
    PromptContains(SurveyHead, SampleReply, baseUrl, SurveyClosing);
    SampleReplyParses();
  }

  lemma PromptContains(head: string, sample: string, baseUrl: string, closing: string)
    ensures var s := head + "\"" + sample + "\"\n\nOr visit: " + baseUrl + "/survey" + closing;
            Contains(s, baseUrl + "/survey") && Contains(s, sample)
  {
    var pre := head + "\"" + sample + "\"\n\nOr visit: ";
    var s := pre + baseUrl + "/survey" + closing;
    assert s == pre + (baseUrl + "/survey") + closing;
    ContainsMiddle(pre, baseUrl + "/survey", closing);
    var post := "\"\n\nOr visit: " + baseUrl + "/survey" + closing;
    assert s == (head + "\"") + sample + post;
    ContainsMiddle(head + "\"", sample, post);
  }

  lemma SampleReplyParses()
    ensures Parse(SampleReply) == Ok(Reply(8, 7, 9, Some(SampleFreeText)))
  {
    var r := Reply(8, 7, 9, Some(SampleFreeText));
    SampleFreeTextCanonical();
    assert WellFormed(r);
    ParseFormat(r);
    FormatEightSevenNine(SampleFreeText);
  }

  lemma FormatEightSevenNine(t: string)
    ensures Format(Reply(8, 7, 9, Some(t))) == "8,7,9," + t
  {
    assert ShowInt(8) == "8" && ShowInt(7) == "7" && ShowInt(9) == "9";
  }

  lemma SampleFreeTextCanonical()
    ensures CanonicalFreeText(SampleFreeText)
  {
    CommaFreeCanonical(SampleFreeText);
  }

  /** The error text of a failed lookup, `User with ID ${userId} not found`. */
  function NotFound(what: string, id: int): string {
    what + " with ID " + ShowInt(id) + " not found"
  }

  /** The one sms_logs row a send attempt writes: the message and the sid
      with status 'sent' when the gateway took it, otherwise the placeholder
      content with status 'failed' and the error text. */
  function LogAttempt(s: Store, userId: int, campaignId: int, kind: MessageKind, content: string,
                      placeholder: string, outcome: Delivery): (r: (Store, SendResult))
    ensures r.0 == AppendLog(s, userId, campaignId, kind, if outcome.Sent? then content else placeholder,
                             if outcome.Sent? then Some(outcome.sid) else None,
                             if outcome.Sent? then "sent" else "failed",
                             if outcome.Sent? then None else Some(outcome.reason))
    ensures r.1.SendOk? <==> outcome.Sent?
  {
    match outcome
    case Sent(sid) => (AppendLog(s, userId, campaignId, kind, content, Some(sid), "sent", None), SendOk(sid))
    case Failed(e) => (AppendLog(s, userId, campaignId, kind, placeholder, None, "failed", Some(e)), SendErr(e))
  }

  /** A send attempt adds exactly one log row, with the next id, and changes
      nothing else; what the caller is told agrees with that row: a success
      carries the sid logged as 'sent' with the message, a failure the error
      logged as 'failed' with the placeholder text. */
  lemma LogAttemptRow(s: Store, userId: int, campaignId: int, kind: MessageKind, content: string,
                      placeholder: string, outcome: Delivery)
    ensures var r := LogAttempt(s, userId, campaignId, kind, content, placeholder, outcome);
            && r.0 == s.(logs := r.0.logs, nextLogId := s.nextLogId + 1)
            && |r.0.logs| == |s.logs| + 1 && r.0.logs[..|s.logs|] == s.logs
            && var row := r.0.logs[|s.logs|];
               && row == LogRow(s.nextLogId, userId, campaignId, kind, row.content, row.sid, row.status, None, row.error)
               && (r.1.SendOk? ==> row.content == content && row.sid == Some(r.1.sid) && row.status == Some("sent")
                                   && row.error == None)
               && (r.1.SendErr? ==> row.content == placeholder && row.sid == None && row.status == Some("failed")
                                    && row.error == Some(r.1.message))
  {
  }

  /** The survey send for a given prompt text: the user and then the
      campaign are looked up, and the prompt goes to the gateway only when
      both exist. */
  function SendPrompt(s: Store, userId: int, campaignId: int, prompt: string, gateway: Delivery): (r: (Store, SendResult))
    ensures |r.0.logs| == |s.logs| + 1 && r.0.logs[..|s.logs|] == s.logs
    ensures r.0 == s.(logs := r.0.logs, nextLogId := s.nextLogId + 1)
    ensures var row := r.0.logs[|s.logs|];
            && row.id == s.nextLogId && row.userId == userId && row.campaignId == campaignId
            && row.kind == SurveyMessage && row.deliveredAt == None
            && (r.1.SendOk? <==> FindUser(s.users, userId).Some? && FindCampaign(s.campaigns, campaignId).Some?
                                 && gateway.Sent?)
            && (r.1.SendOk? ==> row.status == Some("sent") && row.sid == Some(r.1.sid) && gateway == Sent(r.1.sid)
                                && row.content == prompt && row.error == None)
            && (r.1.SendErr? ==> row.status == Some("failed") && row.sid == None && row.content == "Survey message"
                                 && row.error == Some(r.1.message))
    ensures FindUser(s.users, userId).None? ==> r.1 == SendErr(NotFound("User", userId))
    ensures FindUser(s.users, userId).Some? && FindCampaign(s.campaigns, campaignId).None?
            ==> r.1 == SendErr(NotFound("Campaign", campaignId))
  {
    if FindUser(s.users, userId).None? then
      LogAttempt(s, userId, campaignId, SurveyMessage, "", "Survey message", Failed(NotFound("User", userId)))
    else if FindCampaign(s.campaigns, campaignId).None? then
      LogAttempt(s, userId, campaignId, SurveyMessage, "", "Survey message", Failed(NotFound("Campaign", campaignId)))
    else
      LogAttempt(s, userId, campaignId, SurveyMessage, prompt, "Survey message", gateway)
  }

  /** `sendSurveySms(userId, campaignId)`: the prompt is the fixed survey
      text; `gateway` is what the gateway answers if it is asked. */
  function SendSurvey(s: Store, userId: int, campaignId: int, baseUrl: string, gateway: Delivery): (r: (Store, SendResult))
    ensures r.1.SendOk? <==> FindUser(s.users, userId).Some? && FindCampaign(s.campaigns, campaignId).Some?
                             && gateway.Sent?
    ensures |r.0.logs| == |s.logs| + 1
    ensures r.1.SendOk? ==> r.0.logs[|s.logs|].content == SurveyText(baseUrl)
    ensures r.1.SendErr? ==> r.0.logs[|s.logs|].content == "Survey message"
  {
    SendPrompt(s, userId, campaignId, SurveyText(baseUrl), gateway)
  }

  /** `sendFeedbackSms(userId, campaignId, scores)`: only the user is looked up. */
  function SendFeedback(s: Store, userId: int, campaignId: int, joy: int, achievement: int, meaningfulness: int,
                        totals: WeeklyTotals, gateway: Delivery): (r: (Store, SendResult))
    ensures |r.0.logs| == |s.logs| + 1 && r.0.logs[..|s.logs|] == s.logs
    ensures r.0 == s.(logs := r.0.logs, nextLogId := s.nextLogId + 1)
    ensures var row := r.0.logs[|s.logs|];
            && row.id == s.nextLogId && row.userId == userId && row.campaignId == campaignId
            && row.kind == FeedbackMessage && row.deliveredAt == None
            && (r.1.SendOk? <==> FindUser(s.users, userId).Some? && gateway.Sent?)
            && (r.1.SendOk? ==> row.status == Some("sent") && row.sid == Some(r.1.sid) && gateway == Sent(r.1.sid)
                                && row.content == ServiceFeedback(joy, achievement, meaningfulness, totals)
                                && row.error == None)
            && (r.1.SendErr? ==> row.status == Some("failed") && row.sid == None && row.content == "Feedback message"
                                 && row.error == Some(r.1.message))
    ensures FindUser(s.users, userId).None? ==> r.1 == SendErr(NotFound("User", userId))
  {
    if FindUser(s.users, userId).None? then
      LogAttempt(s, userId, campaignId, FeedbackMessage, "", "Feedback message", Failed(NotFound("User", userId)))
    else
      LogAttempt(s, userId, campaignId, FeedbackMessage, ServiceFeedback(joy, achievement, meaningfulness, totals),
                 "Feedback message", gateway)
  }

  /** A send attempt keeps the schema's guarantees. */
  lemma SendPromptValid(s: Store, userId: int, campaignId: int, prompt: string, gateway: Delivery)
    requires Valid(s)
    ensures Valid(SendPrompt(s, userId, campaignId, prompt, gateway).0)
  {
    var row := SendPrompt(s, userId, campaignId, prompt, gateway).0.logs[|s.logs|];
    AppendLogValid(s, userId, campaignId, SurveyMessage, row.content, row.sid, row.status.value, row.error);
  }

  lemma SendFeedbackValid(s: Store, userId: int, campaignId: int, joy: int, achievement: int, meaningfulness: int,
                          totals: WeeklyTotals, gateway: Delivery)
    requires Valid(s)
    ensures Valid(SendFeedback(s, userId, campaignId, joy, achievement, meaningfulness, totals, gateway).0)
  {
    var row := SendFeedback(s, userId, campaignId, joy, achievement, meaningfulness, totals, gateway).0.logs[|s.logs|];
    AppendLogValid(s, userId, campaignId, FeedbackMessage, row.content, row.sid, row.status.value, row.error);
  }
}
