/** The campaign routes: create with date validation, the full-row update,
    the delete guard, and the active-campaign list. A campaign is active on a
    day when its flag is 1 and the day lies between its start and end
    inclusive; the SMS reply path takes the active campaign that started
    last. Request dates arrive already read as day numbers or as unreadable
    text. */
module Campaigns {
  import opened Base
  import opened Database

  /** A date field of a request body: falsy, not a date `new Date` accepts, or a day. */
  datatype DateInput = NoDate | BadDate | Day(day: int)

  datatype Outcome =
    | Created(campaign: Campaign)   // 201
    | Updated(campaign: Campaign)   // 200 with the stored row
    | Deleted                       // 200
    | BadRequest(error: string)     // 400
    | NotFound                      // 404
    | ServerError                   // 500

  /** `is_active = 1 AND date('now') BETWEEN start_date AND end_date`. */
  predicate ActiveOn(c: Campaign, today: int) {
    Active(c.isActive) && c.startDate <= today <= c.endDate
  }

  // ---- POST / ----

  function Create(s: Store, name: Option<string>, start: DateInput, end: DateInput): (r: (Store, Outcome))
    ensures r.1.Created? || r.1.BadRequest?
    ensures r.1.BadRequest? <==> !PresentText(name) || !start.Day? || !end.Day? || start.day >= end.day
    ensures r.1.BadRequest? ==> r.0 == s
    ensures r.1.Created? ==> var c := r.1.campaign;
                             && c.startDate < c.endDate && c.name == name.value && Active(c.isActive)
                             && c.id == s.nextCampaignId && c.startDate == start.day && c.endDate == end.day
                             && r.0 == s.(campaigns := s.campaigns + [c], nextCampaignId := c.id + 1)
  {
    if !PresentText(name) || start.NoDate? || end.NoDate? then
      (s, BadRequest("Missing required fields: name, start_date, end_date"))
    else if start.BadDate? || end.BadDate? then
      (s, BadRequest("Invalid date format. Use YYYY-MM-DD"))
    else if start.day >= end.day then
      (s, BadRequest("End date must be after start date"))
    else
      var c := Campaign(s.nextCampaignId, name.value, start.day, end.day, Some(1));
      (s.(campaigns := s.campaigns + [c], nextCampaignId := c.id + 1), Created(c))
  }

  lemma CreateValid(s: Store, name: Option<string>, start: DateInput, end: DateInput)
    requires Valid(s)
    ensures Valid(Create(s, name, start, end).0)
  {
  }

  // ---- PUT /:id ----

  /** Replaces a stored campaign by id, leaving every other row alone. */
  function ReplaceCampaign(campaigns: seq<Campaign>, c: Campaign): (r: seq<Campaign>)
    ensures |r| == |campaigns|
    ensures forall i :: 0 <= i < |r| ==> r[i] == if campaigns[i].id == c.id then c else campaigns[i]
  {
    if |campaigns| == 0 then []
    else [if campaigns[0].id == c.id then c else campaigns[0]] + ReplaceCampaign(campaigns[1..], c)
  }

  /** `UPDATE campaigns SET name, start_date, end_date, is_active WHERE id = ?`:
      every column takes the body's value, absent ones NULL. An absent row is
      404; a NULL for a NOT NULL column fails the statement (500). The dates
      are not validated again. */
  function Update(s: Store, id: int, name: Option<string>, start: Option<int>, end: Option<int>,
                  isActive: Option<int>): (r: (Store, Outcome))
    ensures r.1.Updated? || r.1.NotFound? || r.1.ServerError?
    ensures r.1.NotFound? <==> FindCampaign(s.campaigns, id).None?
    ensures r.1.ServerError? <==> FindCampaign(s.campaigns, id).Some? && (name.None? || start.None? || end.None?)
    ensures !r.1.Updated? ==> r.0 == s
    ensures r.1.Updated? ==> var c := r.1.campaign;
                             && c == Campaign(id, name.value, start.value, end.value, isActive)
                             && r.0 == s.(campaigns := r.0.campaigns)
                             && |r.0.campaigns| == |s.campaigns|
                             && forall i :: 0 <= i < |s.campaigns| ==>
                                  r.0.campaigns[i] == if s.campaigns[i].id == id then c else s.campaigns[i]
  {
    if FindCampaign(s.campaigns, id).None? then (s, NotFound)
    else if name.None? || start.None? || end.None? then (s, ServerError)
    else
      var c := Campaign(id, name.value, start.value, end.value, isActive);
      (s.(campaigns := ReplaceCampaign(s.campaigns, c)), Updated(c))
  }

  lemma UpdateValid(s: Store, id: int, name: Option<string>, start: Option<int>, end: Option<int>, isActive: Option<int>)
    requires Valid(s)
    ensures Valid(Update(s, id, name, start, end, isActive).0)
  {
    var r := Update(s, id, name, start, end, isActive);
    if r.1.Updated? {
      var cs := r.0.campaigns;
      forall i | 0 <= i < |cs|
        ensures cs[i].id == s.campaigns[i].id
      {
      }
    }
  }

  // ---- DELETE /:id ----

  /** The campaigns other than the one with this id. */
  function RemoveCampaign(campaigns: seq<Campaign>, id: int): (r: seq<Campaign>)
    ensures forall c :: c in r <==> c in campaigns && c.id != id
    ensures multiset(r) <= multiset(campaigns)
  {
    FilterSubMultiset(campaigns, (c: Campaign) => c.id != id);
    Filter(campaigns, (c: Campaign) => c.id != id)
  }

  /** `DELETE /:id`: refused while any response names the campaign. */
  function Delete(s: Store, id: int): (r: (Store, Outcome))
    ensures r.1.Deleted? || r.1.BadRequest? || r.1.NotFound?
    ensures r.1.BadRequest? <==> exists x :: x in s.responses && x.campaignId == id
    ensures r.1.NotFound? <==> !r.1.BadRequest? && FindCampaign(s.campaigns, id).None?
    ensures !r.1.Deleted? ==> r.0 == s
    ensures r.1.Deleted? ==> r.0 == s.(campaigns := r.0.campaigns)
                             && forall c :: c in r.0.campaigns <==> c in s.campaigns && c.id != id
  {
    CountPositive(s.responses, (x: Response) => x.campaignId == id);
    if Count(s.responses, (x: Response) => x.campaignId == id) > 0 then
      (s, BadRequest("Cannot delete campaign with existing responses. Deactivate instead."))
    else if FindCampaign(s.campaigns, id).None? then (s, NotFound)
    else (s.(campaigns := RemoveCampaign(s.campaigns, id)), Deleted)
  }

  /** Deleting one campaign keeps the store valid and removes exactly one row. */
  lemma {:induction false} RemoveOne(campaigns: seq<Campaign>, id: int)
    requires forall i, j :: 0 <= i < j < |campaigns| ==> campaigns[i].id != campaigns[j].id
    requires exists c :: c in campaigns && c.id == id
    ensures |RemoveCampaign(campaigns, id)| == |campaigns| - 1
  {
    var p := (c: Campaign) => c.id != id;
    assert campaigns == [campaigns[0]] + campaigns[1..];
    if campaigns[0].id == id {
      forall c | c in campaigns[1..]
        ensures c.id != id
      {
        var k :| 1 <= k < |campaigns| && campaigns[k] == c;
      }
      FilterAll(campaigns[1..], p);
    } else {
      RemoveOne(campaigns[1..], id);
    }
  }

  lemma {:induction false} FilterAll<T(!new)>(s: seq<T>, p: T -> bool)
    requires forall x :: x in s ==> p(x)
    ensures Filter(s, p) == s
  {
    if |s| > 0 {
      FilterAll(s[1..], p);
      assert s == [s[0]] + s[1..];
    }
  }

  lemma DeleteValid(s: Store, id: int)
    requires Valid(s)
    ensures Valid(Delete(s, id).0)
  {
    var r := Delete(s, id);
    if r.1.Deleted? {
      FilterValid(s.campaigns, s.nextCampaignId, (c: Campaign) => c.id != id);
    }
  }

  lemma {:induction false} FilterValid(campaigns: seq<Campaign>, next: int, p: Campaign -> bool)
    requires CampaignsValid(campaigns, next)
    ensures CampaignsValid(Filter(campaigns, p), next)
  {
    if |campaigns| > 0 {
      FilterValid(campaigns[1..], next, p);
      var t := Filter(campaigns[1..], p);
      if p(campaigns[0]) {
        var r := Filter(campaigns, p);
        assert r == [campaigns[0]] + t;
        forall j | 0 < j < |r|
          ensures r[0].id != r[j].id
        {
          assert r[j] in t;
          var k :| 0 <= k < |campaigns[1..]| && campaigns[1..][k] == r[j];
          assert campaigns[k + 1] == r[j];
        }
      }
    }
  }

  // ---- GET /active/list ----

  /** Inserts `c` before the first campaign that starts later. */
  function InsertByStart(c: Campaign, sorted: seq<Campaign>): (r: seq<Campaign>)
    ensures multiset(r) == multiset(sorted) + multiset{c}
  {
    if |sorted| == 0 || c.startDate < sorted[0].startDate then [c] + sorted
    else
      assert sorted == [sorted[0]] + sorted[1..];
      [sorted[0]] + InsertByStart(c, sorted[1..])
  }

  predicate SortedByStart(s: seq<Campaign>) {
    forall i, j :: 0 <= i < j < |s| ==> s[i].startDate <= s[j].startDate
  }

  lemma {:induction false} InsertByStartSorted(c: Campaign, sorted: seq<Campaign>)
    requires SortedByStart(sorted)
    ensures SortedByStart(InsertByStart(c, sorted))
  {
    if |sorted| > 0 && c.startDate >= sorted[0].startDate {
      InsertByStartSorted(c, sorted[1..]);
      var r := InsertByStart(c, sorted);
      var t := InsertByStart(c, sorted[1..]);
      assert r == [sorted[0]] + t;
      forall k | 0 <= k < |t|
        ensures sorted[0].startDate <= t[k].startDate
      {
        assert t[k] in multiset(t);
        assert t[k] in multiset(sorted[1..]) + multiset{c};
        if t[k] != c {
          var m :| 0 <= m < |sorted[1..]| && sorted[1..][m] == t[k];
        }
      }
    }
  }

  /** An insertion sort by start date. SQLite leaves the order of equal
      start dates unspecified, and so does this sort's contract (it happens
      to put them in reverse stored order). */
  function SortByStart(s: seq<Campaign>): (r: seq<Campaign>)
    ensures multiset(r) == multiset(s)
  {
    if |s| == 0 then []
    else
      assert s == [s[0]] + s[1..];
      InsertByStart(s[0], SortByStart(s[1..]))
  }

  lemma {:induction false} SortByStartSorted(s: seq<Campaign>)
    ensures SortedByStart(SortByStart(s))
  {
    if |s| > 0 {
      SortByStartSorted(s[1..]);
      InsertByStartSorted(s[0], SortByStart(s[1..]));
    }
  }

  /** `GET /active/list`: the campaigns active today, by ascending start date. */
  function ActiveList(campaigns: seq<Campaign>, today: int): (r: seq<Campaign>)
    ensures multiset(r) == multiset(Filter(campaigns, (c: Campaign) => ActiveOn(c, today)))
    ensures forall c :: c in r <==> c in campaigns && ActiveOn(c, today)
  {
    var f := Filter(campaigns, (c: Campaign) => ActiveOn(c, today));
    var r := SortByStart(f);
    SameMembers(r, f);
    r
  }

  /** The active list is in ascending order of start date. */
  lemma ActiveListSorted(campaigns: seq<Campaign>, today: int)
    ensures SortedByStart(ActiveList(campaigns, today))
  {
    SortByStartSorted(Filter(campaigns, (c: Campaign) => ActiveOn(c, today)));
  }

  // ---- the campaign an SMS reply belongs to ----

  /** `... WHERE is_active = 1 AND date('now') BETWEEN start_date AND end_date
      ORDER BY start_date DESC LIMIT 1`: the active campaign with the latest
      start; among equal starts the first stored one. */
  function LatestActive(campaigns: seq<Campaign>, today: int): (r: Option<Campaign>)
    ensures r.None? <==> forall c :: c in campaigns ==> !ActiveOn(c, today)
    ensures r.Some? ==> r.value in campaigns && ActiveOn(r.value, today)
    ensures r.Some? ==> forall c :: c in campaigns && ActiveOn(c, today) ==> c.startDate <= r.value.startDate
  {
    if |campaigns| == 0 then None
    else
      var rest := LatestActive(campaigns[1..], today);
      assert campaigns == [campaigns[0]] + campaigns[1..];
      if !ActiveOn(campaigns[0], today) then rest
      else if rest.Some? && rest.value.startDate > campaigns[0].startDate then rest
      else Some(campaigns[0])
  }
}
