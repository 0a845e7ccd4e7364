/** The daily survey run, the manual test send, the next-run clock and the
    job handle. The gateway is an oracle that answers each (user, campaign)
    send; the clock is the local time of day in the configured zone. */
module Scheduler {
  import opened Base
  import opened Database
  import opened Campaigns
  import opened SmsService

  // ---- sendDailySurveys ----

  /** One (campaign, user) combination of the run. */
  datatype Pair = Pair(campaign: Campaign, user: User)

  /** `SELECT * FROM campaigns WHERE is_active = 1 AND date('now') BETWEEN ...`, in stored order. */
  function ActiveCampaigns(s: Store, today: int): (cs: seq<Campaign>)
    ensures forall c :: c in cs <==> c in s.campaigns && ActiveOn(c, today)
  {
    Filter(s.campaigns, (c: Campaign) => ActiveOn(c, today))
  }

  /** `SELECT * FROM users WHERE is_active = 1`, in stored order. */
  function ActiveUsers(s: Store): (us: seq<User>)
    ensures forall u :: u in us <==> u in s.users && Active(u.isActive)
  {
    Filter(s.users, (u: User) => Active(u.isActive))
  }

  /** The users of one campaign that have not answered it today, in order. */
  function UserPairs(c: Campaign, users: seq<User>, responses: seq<Response>, today: int): (ps: seq<Pair>)
    ensures |ps| <= |users|
  {
    if |users| == 0 then []
    else
      var u := users[|users| - 1];
      UserPairs(c, users[..|users| - 1], responses, today)
      + (if HasResponse(responses, u.id, c.id, today) then [] else [Pair(c, u)])
  }

  /** The pairs the run attempts: campaign-major, then user order, skipping
      the pairs already answered today. */
  function Pairs(campaigns: seq<Campaign>, users: seq<User>, responses: seq<Response>, today: int): seq<Pair> {
    if |campaigns| == 0 then []
    else
      var c := campaigns[|campaigns| - 1];
      Pairs(campaigns[..|campaigns| - 1], users, responses, today) + UserPairs(c, users, responses, today)
  }

  /** A campaign's pairs are its users that have not answered it today. */
  lemma {:induction false} UserPairsMembers(c: Campaign, users: seq<User>, responses: seq<Response>, today: int)
    ensures forall p :: p in UserPairs(c, users, responses, today) <==>
              p.campaign == c && p.user in users && !HasResponse(responses, p.user.id, c.id, today)
  {
    if |users| > 0 {
      var n := |users| - 1;
      UserPairsMembers(c, users[..n], responses, today);
      assert users == users[..n] + [users[n]];
    }
  }

  /** The run's pairs are every stored combination not answered today. */
  lemma {:induction false} PairsMembers(campaigns: seq<Campaign>, users: seq<User>, responses: seq<Response>, today: int)
    ensures forall p :: p in Pairs(campaigns, users, responses, today) <==>
              p.campaign in campaigns && p.user in users && !HasResponse(responses, p.user.id, p.campaign.id, today)
  {
    if |campaigns| > 0 {
      var n := |campaigns| - 1;
      PairsMembers(campaigns[..n], users, responses, today);
      UserPairsMembers(campaigns[n], users, responses, today);
      assert campaigns == campaigns[..n] + [campaigns[n]];
    }
  }

  /** No more pairs than campaigns times users. */
  lemma {:induction false} PairsBound(campaigns: seq<Campaign>, users: seq<User>, responses: seq<Response>, today: int)
    ensures |Pairs(campaigns, users, responses, today)| <= |campaigns| * |users|
  {
    if |campaigns| > 0 {
      var n := |campaigns| - 1;
      PairsBound(campaigns[..n], users, responses, today);
      MulSucc(n, |users|);
    }
  }

  lemma MulSucc(a: nat, b: nat)
    ensures (a + 1) * b == a * b + b
  {
  }

  lemma MulMono(a: nat, b: nat, c: nat, d: nat)
    requires a <= c && b <= d
    ensures a * b <= c * d
  {
  }

  function EligiblePairs(s: Store, today: int): seq<Pair> {
    Pairs(ActiveCampaigns(s, today), ActiveUsers(s), s.responses, today)
  }

  /** A pair is attempted exactly when its campaign is active today, its user
      is active, and the user has not answered that campaign today; there are
      at most as many as campaigns times users. */
  lemma EligibleSpec(s: Store, today: int)
    ensures forall p :: p in EligiblePairs(s, today) <==>
              && p.campaign in s.campaigns && ActiveOn(p.campaign, today)
              && p.user in s.users && Active(p.user.isActive)
              && !HasResponse(s.responses, p.user.id, p.campaign.id, today)
    ensures |EligiblePairs(s, today)| <= |s.campaigns| * |s.users|
  {
    var cs, us := ActiveCampaigns(s, today), ActiveUsers(s);
    PairsMembers(cs, us, s.responses, today);
    PairsBound(cs, us, s.responses, today);
    MulMono(|cs|, |us|, |s.campaigns|, |s.users|);
  }

  /** The store after sending the survey to every pair in order. */
  function SendAll(s: Store, pairs: seq<Pair>, prompt: string, gateway: (int, int) -> Delivery): (t: Store)
    ensures t.users == s.users && t.campaigns == s.campaigns && t.responses == s.responses
    ensures |t.logs| == |s.logs| + |pairs| && t.logs[..|s.logs|] == s.logs
  {
    if |pairs| == 0 then s
    else
      var p := pairs[|pairs| - 1];
      var before := SendAll(s, pairs[..|pairs| - 1], prompt, gateway);
      SendPrompt(before, p.user.id, p.campaign.id, prompt, gateway(p.user.id, p.campaign.id)).0
  }

  /** `row` is the survey log row of an attempt on `p`. */
  predicate LogsPair(row: LogRow, p: Pair) {
    row.kind == SurveyMessage && row.userId == p.user.id && row.campaignId == p.campaign.id
  }

  /** Every pair's attempt leaves its own survey log row, in order: the row
      at position `|s.logs| + i` belongs to the `i`-th pair. */
  lemma {:induction false} SendAllLogs(s: Store, pairs: seq<Pair>, i: int, prompt: string, gateway: (int, int) -> Delivery)
    requires 0 <= i < |pairs|
    ensures LogsPair(SendAll(s, pairs, prompt, gateway).logs[|s.logs| + i], pairs[i])
  {
    var n := |pairs| - 1;
    var t := SendAll(s, pairs, prompt, gateway);
    var before := SendAll(s, pairs[..n], prompt, gateway);
    SendAllLast(s, pairs, prompt, gateway);
    if i < n {
      SendAllLogs(s, pairs[..n], i, prompt, gateway);
      assert t.logs[|s.logs| + i] == t.logs[..|before.logs|][|s.logs| + i] == before.logs[|s.logs| + i];
      assert pairs[..n][i] == pairs[i];
    } else {
      assert |s.logs| + i == |before.logs|;
    }
  }

  /** The run's last attempt appends one row for its pair and keeps the rest. */
  lemma SendAllLast(s: Store, pairs: seq<Pair>, prompt: string, gateway: (int, int) -> Delivery)
    requires |pairs| > 0
    ensures var before := SendAll(s, pairs[..|pairs| - 1], prompt, gateway);
            var t := SendAll(s, pairs, prompt, gateway);
            var p := pairs[|pairs| - 1];
            && |before.logs| == |s.logs| + |pairs| - 1
            && |t.logs| == |before.logs| + 1
            && t.logs[..|before.logs|] == before.logs
            && LogsPair(t.logs[|before.logs|], p)
  {
  }

  lemma {:induction false} SendAllValid(s: Store, pairs: seq<Pair>, prompt: string, gateway: (int, int) -> Delivery)
    requires Valid(s)
    ensures Valid(SendAll(s, pairs, prompt, gateway))
  {
    if |pairs| > 0 {
      var p := pairs[|pairs| - 1];
      SendAllValid(s, pairs[..|pairs| - 1], prompt, gateway);
      SendPromptValid(SendAll(s, pairs[..|pairs| - 1], prompt, gateway), p.user.id, p.campaign.id, prompt,
                      gateway(p.user.id, p.campaign.id));
    }
  }

  /** The number of pairs whose send the gateway accepts. */
  function Delivered(pairs: seq<Pair>, gateway: (int, int) -> Delivery): (n: nat)
    ensures n <= |pairs|
  {
    if |pairs| == 0 then 0
    else
      var p := pairs[|pairs| - 1];
      Delivered(pairs[..|pairs| - 1], gateway) + if gateway(p.user.id, p.campaign.id).Sent? then 1 else 0
  }

  lemma DeliveredSnoc(pairs: seq<Pair>, p: Pair, gateway: (int, int) -> Delivery)
    ensures Delivered(pairs + [p], gateway) == Delivered(pairs, gateway) + if gateway(p.user.id, p.campaign.id).Sent? then 1 else 0
  {
    assert (pairs + [p])[..|pairs|] == pairs;
  }

  datatype RunReport = NoActiveCampaigns | NoActiveUsers | Distributed(sent: nat, failed: nat)

  /** `sendDailySurveys`: a nested loop over the active campaigns and the
      active users, skipping pairs answered today and counting each send as
      sent or failed. */
  method SendDailySurveys(s: Store, today: int, baseUrl: string, gateway: (int, int) -> Delivery)
    returns (t: Store, report: RunReport)
    ensures report.NoActiveCampaigns? <==> |ActiveCampaigns(s, today)| == 0
    ensures report.NoActiveUsers? <==> |ActiveCampaigns(s, today)| > 0 && |ActiveUsers(s)| == 0
    ensures !report.Distributed? ==> t == s
    ensures report.Distributed? ==>
              && t == SendAll(s, EligiblePairs(s, today), SurveyText(baseUrl), gateway)
              && report.sent == Delivered(EligiblePairs(s, today), gateway)
              && report.sent + report.failed == |EligiblePairs(s, today)|
  {
    var campaigns := ActiveCampaigns(s, today);
    if |campaigns| == 0 {
      return s, NoActiveCampaigns;
    }
    var users := ActiveUsers(s);
    if |users| == 0 {
      return s, NoActiveUsers;
    }
    var sent, failed;
    t, sent, failed := SendToAll(s, campaigns, users, today, SurveyText(baseUrl), gateway);
    report := Distributed(sent, failed);
  }

  /** The outer loop of the run: every active campaign in order, each with
      every active user. */
  method SendToAll(s: Store, campaigns: seq<Campaign>, users: seq<User>, today: int, prompt: string,
                   gateway: (int, int) -> Delivery)
    returns (t: Store, sent: nat, failed: nat)
    requires (forall c :: c in campaigns ==> c in s.campaigns) && forall u :: u in users ==> u in s.users
    ensures t == SendAll(s, Pairs(campaigns, users, s.responses, today), prompt, gateway)
    ensures sent == Delivered(Pairs(campaigns, users, s.responses, today), gateway)
    ensures sent + failed == |Pairs(campaigns, users, s.responses, today)|
  {
    t, sent, failed := s, 0, 0;
    assert campaigns[..0] == [];
    var i := 0;
    while i < |campaigns|
      invariant 0 <= i <= |campaigns|
      invariant t.users == s.users && t.campaigns == s.campaigns && t.responses == s.responses
      invariant t == SendAll(s, Pairs(campaigns[..i], users, s.responses, today), prompt, gateway)
      invariant sent == Delivered(Pairs(campaigns[..i], users, s.responses, today), gateway)
      invariant sent + failed == |Pairs(campaigns[..i], users, s.responses, today)|
    {
      ghost var done := Pairs(campaigns[..i], users, s.responses, today);
      var t', sentHere, failedHere := SendToUsers(t, campaigns[i], users, today, prompt, gateway);
      ghost var here := UserPairs(campaigns[i], users, s.responses, today);
      SendAllAppend(s, done, here, prompt, gateway);
      DeliveredAppend(done, here, gateway);
      PairsSnoc(campaigns, i, users, s.responses, today);
      t, sent, failed := t', sent + sentHere, failed + failedHere;
      i := i + 1;
    }
    assert campaigns[..|campaigns|] == campaigns;
  }

  /** The inner loop of the run: one campaign, every active user in order. */
  method SendToUsers(s: Store, c: Campaign, users: seq<User>, today: int, prompt: string,
                     gateway: (int, int) -> Delivery)
    returns (t: Store, sent: nat, failed: nat)
    requires c in s.campaigns && forall u :: u in users ==> u in s.users
    ensures t == SendAll(s, UserPairs(c, users, s.responses, today), prompt, gateway)
    ensures sent == Delivered(UserPairs(c, users, s.responses, today), gateway)
    ensures sent + failed == |UserPairs(c, users, s.responses, today)|
  {
    ghost var acc: seq<Pair> := [];
    t, sent, failed := s, 0, 0;
    assert users[..0] == [];
    var j := 0;
    while j < |users|
      invariant 0 <= j <= |users|
      invariant acc == UserPairs(c, users[..j], s.responses, today)
      invariant RunSoFar(s, acc, t, sent, failed, prompt, gateway)
    {
      UserPairsStep(c, users, j, s.responses, today);
      t, sent, failed := SendIfUnanswered(s, acc, t, sent, failed, Pair(c, users[j]), today, prompt, gateway);
      acc := UserPairs(c, users[..j + 1], s.responses, today);
      j := j + 1;
    }
    assert users[..|users|] == users;
  }

  /** The store and the tallies after the pairs `acc` of a run from `s`. */
  predicate RunSoFar(s: Store, acc: seq<Pair>, t: Store, sent: nat, failed: nat, prompt: string,
                     gateway: (int, int) -> Delivery) {
    t == SendAll(s, acc, prompt, gateway) && sent == Delivered(acc, gateway) && sent + failed == |acc|
  }

  /** The body of the inner loop: a user who has answered the campaign today
      is skipped; otherwise the survey is sent and counted as sent or failed.
      `acc` is the part of the run already done. */
  method SendIfUnanswered(s: Store, ghost acc: seq<Pair>, t: Store, sent: nat, failed: nat, p: Pair, today: int,
                          prompt: string, gateway: (int, int) -> Delivery)
    returns (t': Store, sent': nat, failed': nat)
    requires RunSoFar(s, acc, t, sent, failed, prompt, gateway)
    requires p.user in s.users && p.campaign in s.campaigns
    ensures RunSoFar(s, Extend(acc, p, s.responses, today), t', sent', failed', prompt, gateway)
  {
    if HasResponse(t.responses, p.user.id, p.campaign.id, today) {
      assert Extend(acc, p, s.responses, today) == acc;
      return t, sent, failed;
    }
    var attempt := SendPrompt(t, p.user.id, p.campaign.id, prompt, gateway(p.user.id, p.campaign.id));
    SendStep(s, t, acc, p, prompt, gateway);
    t' := attempt.0;
    if attempt.1.SendOk? {
      sent', failed' := sent + 1, failed;
    } else {
      sent', failed' := sent, failed + 1;
    }
  }

  /** The pairs done so far, followed by `p` unless its user has answered
      its campaign today. */
  function Extend(acc: seq<Pair>, p: Pair, responses: seq<Response>, today: int): seq<Pair> {
    acc + if HasResponse(responses, p.user.id, p.campaign.id, today) then [] else [p]
  }

  lemma UserPairsStep(c: Campaign, users: seq<User>, j: int, responses: seq<Response>, today: int)
    requires 0 <= j < |users|
    ensures UserPairs(c, users[..j + 1], responses, today)
            == Extend(UserPairs(c, users[..j], responses, today), Pair(c, users[j]), responses, today)
  {
    assert users[..j + 1][..j] == users[..j];
  }

  lemma {:induction false} SendAllAppend(s: Store, a: seq<Pair>, b: seq<Pair>, prompt: string,
                                         gateway: (int, int) -> Delivery)
    ensures SendAll(s, a + b, prompt, gateway) == SendAll(SendAll(s, a, prompt, gateway), b, prompt, gateway)
  {
    if |b| == 0 {
      assert a + b == a;
    } else {
      var n := |b| - 1;
      SendAllAppend(s, a, b[..n], prompt, gateway);
      assert (a + b)[..|a + b| - 1] == a + b[..n];
    }
  }

  lemma {:induction false} DeliveredAppend(a: seq<Pair>, b: seq<Pair>, gateway: (int, int) -> Delivery)
    ensures Delivered(a + b, gateway) == Delivered(a, gateway) + Delivered(b, gateway)
  {
    if |b| == 0 {
      assert a + b == a;
    } else {
      var n := |b| - 1;
      DeliveredAppend(a, b[..n], gateway);
      assert (a + b)[..|a + b| - 1] == a + b[..n];
    }
  }

  lemma PairsSnoc(campaigns: seq<Campaign>, i: int, users: seq<User>, responses: seq<Response>, today: int)
    requires 0 <= i < |campaigns|
    ensures Pairs(campaigns[..i + 1], users, responses, today)
            == Pairs(campaigns[..i], users, responses, today) + UserPairs(campaigns[i], users, responses, today)
  {
    assert campaigns[..i + 1][..i] == campaigns[..i];
  }

  /** One step of the inner loop: sending to a pair whose user and campaign
      are stored extends the run by that pair, and the send succeeds exactly
      when the gateway accepts it. */
  lemma SendStep(s: Store, t: Store, acc: seq<Pair>, p: Pair, prompt: string, gateway: (int, int) -> Delivery)
    requires t == SendAll(s, acc, prompt, gateway)
    requires p.user in t.users && p.campaign in t.campaigns
    ensures var a := SendPrompt(t, p.user.id, p.campaign.id, prompt, gateway(p.user.id, p.campaign.id));
            && a.0 == SendAll(s, acc + [p], prompt, gateway)
            && Delivered(acc + [p], gateway) == Delivered(acc, gateway) + (if a.1.SendOk? then 1 else 0)
  {
    SendAllSnoc(s, acc, p, prompt, gateway);
    DeliveredSnoc(acc, p, gateway);
    assert FindUser(t.users, p.user.id).Some? && FindCampaign(t.campaigns, p.campaign.id).Some?;
  }

  lemma SendAllSnoc(s: Store, pairs: seq<Pair>, p: Pair, prompt: string, gateway: (int, int) -> Delivery)
    ensures SendAll(s, pairs + [p], prompt, gateway)
            == SendPrompt(SendAll(s, pairs, prompt, gateway), p.user.id, p.campaign.id, prompt,
                          gateway(p.user.id, p.campaign.id)).0
  {
    assert (pairs + [p])[..|pairs|] == pairs;
  }

  // ---- sendTestSurvey ----

  datatype TestResult = TestSent(message: string) | TestFailed(error: string)

  /** `sendTestSurvey`: one send with no eligibility test at all, so a user
      who answered today, an inactive user or an inactive campaign is sent to
      as well; success is exactly the send's success. */
  function SendTestSurvey(s: Store, userId: int, campaignId: int, baseUrl: string, gateway: Delivery): (r: (Store, TestResult))
    ensures r.0 == SendSurvey(s, userId, campaignId, baseUrl, gateway).0
    ensures r.1.TestSent? <==> FindUser(s.users, userId).Some? && FindCampaign(s.campaigns, campaignId).Some?
                               && gateway.Sent?
    ensures r.1.TestFailed? ==> SendSurvey(s, userId, campaignId, baseUrl, gateway).1 == SendErr(r.1.error)
  {
    var (t, result) := SendSurvey(s, userId, campaignId, baseUrl, gateway);
    match result
    case SendOk(_) => (t, TestSent("Test survey sent successfully"))
    case SendErr(e) => (t, TestFailed(e))
  }

  // ---- getNextScheduledTime ----

  const MillisPerDay: int := 86_400_000
  const SevenAm: int := 7 * 3_600_000

  /** The local time of day, in whole seconds and the milliseconds within the second. */
  datatype Clock = Clock(second: int, millis: int)

  predicate ValidClock(now: Clock) {
    0 <= now.second < 86_400 && 0 <= now.millis < 1_000
  }

  function NowMillis(now: Clock): int {
    now.second * 1_000 + now.millis
  }

  datatype NextRun = NextRun(tomorrow: bool, atMillis: int, minutesUntil: int)

  /** `getNextScheduledTime`: `now` with hour, minute and second set to
      07:00:00 keeps its milliseconds; when `now` is after that instant the
      run moves to the next day; the wait is the difference in whole minutes,
      truncated. `atMillis` counts from the start of today. */
  function NextScheduledTime(now: Clock): (r: NextRun)
    requires ValidClock(now)
    ensures r.tomorrow <==> now.second > 25_200
    ensures NowMillis(now) <= r.atMillis < NowMillis(now) + MillisPerDay
    ensures r.atMillis % 1_000 == now.millis && (r.atMillis - SevenAm) % MillisPerDay < 1_000
    ensures 0 <= r.minutesUntil < 1440
    ensures r.minutesUntil * 60_000 <= r.atMillis - NowMillis(now) < (r.minutesUntil + 1) * 60_000
  {
    var sameDay := SevenAm + now.millis;
    var next := if NowMillis(now) > sameDay then sameDay + MillisPerDay else sameDay;
    NextRun(next != sameDay, next, (next - NowMillis(now)) / 60_000)
  }

  // ---- start / stop ----

  /** The job handle and every cron job created so far, with whether each is
      still scheduled. */
  datatype Jobs = Jobs(scheduled: seq<bool>, current: Option<nat>)

  predicate JobsValid(j: Jobs) {
    j.current.Some? ==> j.current.value < |j.scheduled|
  }

  /** `start`: schedules a new job and keeps its handle; a job started before
      is not stopped and stays scheduled. */
  function Start(j: Jobs): (r: Jobs)
    requires JobsValid(j)
    ensures JobsValid(r) && r.current == Some(|j.scheduled|) && r.scheduled[|j.scheduled|]
    ensures |r.scheduled| == |j.scheduled| + 1 && r.scheduled[..|j.scheduled|] == j.scheduled
  {
    Jobs(j.scheduled + [true], Some(|j.scheduled|))
  }

  /** `stop`: without a handle nothing happens; otherwise the job it names
      is unscheduled and every other job is left as it was. */
  function Stop(j: Jobs): (r: Jobs)
    requires JobsValid(j)
    ensures JobsValid(r) && r.current == j.current && |r.scheduled| == |j.scheduled|
    ensures j.current.None? ==> r == j
    ensures j.current.Some? ==> !r.scheduled[j.current.value]
    ensures forall k :: 0 <= k < |j.scheduled| && j.current != Some(k) ==> r.scheduled[k] == j.scheduled[k]
  {
    if j.current.None? then j else Jobs(j.scheduled[j.current.value := false], j.current)
  }

  /** Starting twice and stopping once leaves the first job scheduled. */
  lemma StartTwiceLeaksFirst(j: Jobs)
    requires JobsValid(j)
    ensures Stop(Start(Start(j))).scheduled[|j.scheduled|]
  {
  }
}
