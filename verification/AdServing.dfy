/** Ad serving: ranked selection among the live ads, with a per-session frequency cap. */
module AdServing {
  import opened Optional
  import opened Sorting
  import opened AdBilling

  type Id = string

  const FREQ_CAP := 3
  const QUERY_TAKE := 50
  const DEFAULT_CTR: real := 0.02

  datatype Targeting = Targeting(cityIds: seq<Id>, categoryIds: seq<Id>, excludeCategoryIds: seq<Id>)

  /** An ad row joined with its campaign and the advertiser's wallet. */
  datatype AdRow = AdRow(
    id: Id, approved: bool, slot: string, startsAt: Option<int>, endsAt: Option<int>,
    impressions: int, ctr: real, createdAt: int,
    campaignActive: bool, campaignStart: int, campaignEnd: Option<int>, targeting: Option<Targeting>,
    bidType: BidType, bidAmount: int, budget: int, totalSpent: int, wallet: int)

  datatype Request = Request(slot: string, cityId: Option<Id>, categoryId: Option<Id>, limit: nat, sessionId: Option<Id>, now: int)

  // ---------------------------------------------------------------- candidates

  predicate Given(x: Option<Id>) { x.Some? && x.value != "" }

  predicate MatchesTargeting(t: Option<Targeting>, cityId: Option<Id>, categoryId: Option<Id>) {
    t.Some? ==>
      && !(t.value.cityIds != [] && Given(cityId) && cityId.value !in t.value.cityIds)
      && !(t.value.categoryIds != [] && Given(categoryId) && categoryId.value !in t.value.categoryIds)
      && !(t.value.excludeCategoryIds != [] && Given(categoryId) && categoryId.value in t.value.excludeCategoryIds)
  }

  /** The query's filter: approved, in the slot, inside its own and its campaign's dates. */
  predicate Live(r: Request, ad: AdRow) {
    && ad.approved && ad.slot == r.slot
    && (ad.startsAt.Some? ==> ad.startsAt.value <= r.now) && (ad.endsAt.Some? ==> ad.endsAt.value > r.now)
    && ad.campaignActive && ad.campaignStart <= r.now && (ad.campaignEnd.Some? ==> ad.campaignEnd.value > r.now)
  }

  const QueryOrder: (AdRow, AdRow) -> bool := (a: AdRow, b: AdRow) =>
    a.impressions < b.impressions || (a.impressions == b.impressions && a.createdAt > b.createdAt)

  function Candidates(table: seq<AdRow>, r: Request): seq<AdRow> {
    Take(Sort(Filter(table, (a: AdRow) => Live(r, a)), QueryOrder), QUERY_TAKE)
  }

  /** The checks before the frequency cap: money left and targeting. */
  predicate Considered(r: Request, ad: AdRow) {
    ad.totalSpent < ad.budget && ad.wallet > 0 && MatchesTargeting(ad.targeting, r.cityId, r.categoryId)
  }

  // ---------------------------------------------------------------- the frequency counters

  type Counters = map<string, int>

  function Session(r: Request): Id { if r.sessionId.Some? then r.sessionId.value else "anon" }

  function CapKey(session: Id, ad: Id): string { "ad:freq:" + session + ":" + ad }

  function Count(c: Counters, key: string): int { if key in c then c[key] else 0 }

  function Bump(c: Counters, key: string): Counters { c[key := Count(c, key) + 1] }

  /** A counter starts at one and goes up by one; no other counter moves. */
  lemma BumpExactly(c: Counters, session: Id, ad: Id)
    ensures var key := "ad:freq:" + session + ":" + ad;
      Bump(c, CapKey(session, ad)) == c[key := if key in c then c[key] + 1 else 1]
  {
  }

  /** Every considered ad costs its session one count, whether or not it is served. */
  function CountersAfter(ads: seq<AdRow>, r: Request, c: Counters): Counters {
    if ads == [] then c
    else
      var before := CountersAfter(ads[..|ads| - 1], r, c);
      var last := ads[|ads| - 1];
      if Considered(r, last) && Session(r) != "" then Bump(before, CapKey(Session(r), last.id)) else before
  }

  predicate Eligible(r: Request, c: Counters, ad: AdRow) {
    Considered(r, ad) && (Session(r) == "" || Count(c, CapKey(Session(r), ad.id)) + 1 <= FREQ_CAP)
  }

  function EligibleAds(ads: seq<AdRow>, r: Request, c: Counters): seq<AdRow> {
    Filter(ads, (a: AdRow) => Eligible(r, c, a))
  }

  // ---------------------------------------------------------------- ranking

  function EstimateEcpm(bidType: BidType, bidAmount: int, ctr: real): real {
    if bidType == CPM then bidAmount as real else bidAmount as real * ctr * 1000.0
  }

  function Ecpm(ad: AdRow): real {
    EstimateEcpm(ad.bidType, ad.bidAmount, if ad.ctr > 0.0 then ad.ctr else DEFAULT_CTR)
  }

  /** Higher eCPM first; among equals, fewer impressions first. */
  const RankBefore: (AdRow, AdRow) -> bool := (a: AdRow, b: AdRow) =>
    Ecpm(a) > Ecpm(b) || (Ecpm(a) == Ecpm(b) && a.impressions < b.impressions)

  function Served(table: seq<AdRow>, r: Request, c: Counters): seq<AdRow> {
    Take(Sort(EligibleAds(Candidates(table, r), r, c), RankBefore), r.limit)
  }

  ghost predicate DistinctIds(ads: seq<AdRow>) {
    forall i, j :: 0 <= i < j < |ads| ==> ads[i].id != ads[j].id
  }

  // ---------------------------------------------------------------- what may be served, column by column

  /** Approved, in the slot, and inside its own dates and those of an active campaign. */
  ghost predicate OnAir(r: Request, ad: AdRow) {
    && ad.approved && ad.campaignActive && ad.slot == r.slot
    && ad.campaignStart <= r.now && (ad.startsAt == None || ad.startsAt.value <= r.now)
    && (ad.endsAt == None || r.now < ad.endsAt.value) && (ad.campaignEnd == None || r.now < ad.campaignEnd.value)
  }

  /** An empty list reaches everybody, and a request that names nothing is reached by every list. */
  ghost predicate Reaches(list: seq<Id>, named: Option<Id>) { list == [] || named in {None, Some("")} || named.value in list }

  /** Money is left in budget and wallet, and the campaign's targeting has room for the request. */
  ghost predicate Competes(r: Request, ad: AdRow) {
    && ad.budget - ad.totalSpent > 0 && 0 < ad.wallet
    && (ad.targeting.Some? ==>
          && Reaches(ad.targeting.value.cityIds, r.cityId) && Reaches(ad.targeting.value.categoryIds, r.categoryId)
          && (r.categoryId.Some? && r.categoryId.value != "" ==> r.categoryId.value !in ad.targeting.value.excludeCategoryIds))
  }

  /** Fewer than three counts for this session; a missing session is `anon`, an empty one is never counted. */
  ghost predicate UnderCap(r: Request, c: Counters, ad: AdRow) {
    var session := if r.sessionId.None? then "anon" else r.sessionId.value;
    var key := "ad:freq:" + session + ":" + ad.id;
    session != "" && key in c ==> c[key] < 3
  }

  lemma OnAirExactly(r: Request, ad: AdRow)
    ensures Live(r, ad) <==> OnAir(r, ad)
  {
  }

  lemma CompetesExactly(r: Request, ad: AdRow)
    ensures Considered(r, ad) <==> Competes(r, ad)
  {
  }

  lemma EligibleExactly(r: Request, c: Counters, ad: AdRow)
    ensures Eligible(r, c, ad) <==> Competes(r, ad) && UnderCap(r, c, ad)
  {
    CompetesExactly(r, ad);
  }

  /** An impression bid counts in full; a click bid counts a thousand times its click rate, or a fiftieth without one. */
  lemma EcpmExactly(ad: AdRow)
    ensures ad.bidType == CPM ==> Ecpm(ad) == ad.bidAmount as real
    ensures ad.bidType == CPC && ad.ctr > 0.0 ==> Ecpm(ad) == 1000.0 * ad.bidAmount as real * ad.ctr
    ensures ad.bidType == CPC && ad.ctr <= 0.0 ==> Ecpm(ad) == 20.0 * ad.bidAmount as real
  {
  }

  // ---------------------------------------------------------------- the selection is the best one

  lemma RankIsOrdering()
    ensures Ordering(RankBefore)
  {
  }

  lemma QueryIsOrdering()
    ensures Ordering(QueryOrder)
  {
  }

  /** The query's order: fewer impressions first, then the newer ad. */
  ghost predicate Fresher(a: AdRow, b: AdRow) {
    a.impressions < b.impressions || (a.impressions == b.impressions && a.createdAt >= b.createdAt)
  }

  /**
   * The query returns ads on air, freshest first, and at most fifty: one that is missing is no fresher
   * than any of fifty that are there.
   */
  lemma CandidatesAreTheFreshest(table: seq<AdRow>, r: Request)
    ensures var ads := Candidates(table, r);
      && |ads| <= 50
      && (forall a :: a in ads ==> a in table && OnAir(r, a))
      && (forall i, j :: 0 <= i < j < |ads| ==> Fresher(ads[i], ads[j]))
      && (forall a :: a in table && OnAir(r, a) && a !in ads ==> |ads| == 50 && forall x :: x in ads ==> Fresher(x, a))
  {
    hide Sort;
    hide Live;
    hide OnAir;
    var live := Filter(table, (a: AdRow) => Live(r, a));
    QueryIsOrdering();
    NothingBetterIsCut(live, QueryOrder, QUERY_TAKE);
    hide Filter;
    forall a ensures Live(r, a) <==> OnAir(r, a) {
      OnAirExactly(r, a);
    }
  }

  /** Higher eCPM, or the same with no more impressions. */
  ghost predicate Outranks(a: AdRow, b: AdRow) { Ecpm(a) > Ecpm(b) || (Ecpm(a) == Ecpm(b) && a.impressions <= b.impressions) }

  /**
   * The ads served are candidates that may be served, as many as fit, by falling eCPM, then by
   * impressions, then newest first, and every candidate left out although it may be served is
   * outranked by each of them.
   */
  lemma ServedAreTheBest(table: seq<AdRow>, r: Request, c: Counters)
    ensures var ads := Candidates(table, r); var served := Served(table, r, c);
      && |served| <= r.limit
      && multiset(served) <= multiset(ads)
      && (forall a :: a in served ==> a in ads && Competes(r, a) && UnderCap(r, c, a))
      && (forall i, j :: 0 <= i < j < |served| ==> Outranks(served[i], served[j]))
      && (forall i, j :: 0 <= i < j < |served| && Ecpm(served[i]) == Ecpm(served[j]) && served[i].impressions == served[j].impressions
            ==> served[i].createdAt >= served[j].createdAt)
      && (forall a :: a in ads && Competes(r, a) && UnderCap(r, c, a) && a !in served
            ==> |served| == r.limit && forall x :: x in served ==> Outranks(x, a))
  {
    hide Sort;
    hide Competes;
    hide UnderCap;
    hide Eligible;
    hide Ecpm;
    hide Filter;
    var ads := Candidates(table, r);
    var eligible, served := EligibleAds(ads, r, c), Served(table, r, c);
    RankIsOrdering();
    BestAreKept(eligible, RankBefore, r.limit);
    NothingBetterIsCut(eligible, RankBefore, r.limit);
    EligibleInOrder(table, r, c);
    FilterIsPart(ads, (a: AdRow) => Eligible(r, c, a));
    hide Candidates;
    forall a ensures Eligible(r, c, a) <==> Competes(r, a) && UnderCap(r, c, a) {
      EligibleExactly(r, c, a);
    }
    forall i, j | 0 <= i < j < |served| && Ecpm(served[i]) == Ecpm(served[j]) && served[i].impressions == served[j].impressions
      ensures served[i].createdAt >= served[j].createdAt
    {
      TiesKeepFirstOrder(eligible, QueryOrder, RankBefore, i, j);
    }
  }

  /**
   * Every ad served is on air, competes for the request and is under the cap; none is served twice, none
   * outranks one before it, and a competing candidate is left out only when the list is full of better ones.
   */
  ghost predicate BestServed(table: seq<AdRow>, r: Request, c: Counters, served: seq<AdRow>) {
    && |served| <= r.limit && DistinctIds(served)
    && (forall a :: a in served ==> a in table && OnAir(r, a) && Competes(r, a) && UnderCap(r, c, a))
    && (forall i, j :: 0 <= i < j < |served| ==> Outranks(served[i], served[j]))
    && (forall a :: a in Candidates(table, r) && Competes(r, a) && UnderCap(r, c, a) && a !in served
          ==> |served| == r.limit && forall x :: x in served ==> Outranks(x, a))
  }

  lemma ServedIsBest(table: seq<AdRow>, r: Request, c: Counters)
    requires DistinctIds(table)
    ensures BestServed(table, r, c, Served(table, r, c))
  {
    ServedAreTheBest(table, r, c);
    ServedAreDistinct(table, r, c);
    CandidatesAreTheFreshest(table, r);
    hide Served;
    hide Candidates;
    hide OnAir;
    hide Competes;
    hide UnderCap;
    hide Outranks;
  }

  lemma EligibleInOrder(table: seq<AdRow>, r: Request, c: Counters)
    ensures Sorted(EligibleAds(Candidates(table, r), r, c), QueryOrder)
  {
    hide Sort;
    hide Filter;
    QueryIsOrdering();
    NothingBetterIsCut(Filter(table, (a: AdRow) => Live(r, a)), QueryOrder, QUERY_TAKE);
    FilterKeepsSorted(Candidates(table, r), (a: AdRow) => Eligible(r, c, a), QueryOrder);
  }

  lemma {:induction false} FilterIsPart(ads: seq<AdRow>, keep: AdRow -> bool)
    ensures multiset(Filter(ads, keep)) <= multiset(ads)
  {
    if ads != [] {
      FilterIsPart(ads[1..], keep);
      assert ads == [ads[0]] + ads[1..];
    }
  }

  // ---------------------------------------------------------------- counters move by one

  lemma {:induction false} InsertDistinct(x: AdRow, s: seq<AdRow>, before: (AdRow, AdRow) -> bool)
    requires DistinctIds(s) && forall a :: a in s ==> a.id != x.id
    ensures DistinctIds(Insert(x, s, before))
  {
    if s != [] && before(s[0], x) {
      InsertDistinct(x, s[1..], before);
      InsertMembers(x, s[1..], before);
      forall a | a in Insert(x, s[1..], before) ensures a.id != s[0].id {
        if a != x {
          assert a in s[1..];
        }
      }
    }
  }

  lemma {:induction false} SortDistinct(s: seq<AdRow>, before: (AdRow, AdRow) -> bool)
    requires DistinctIds(s)
    ensures DistinctIds(Sort(s, before))
  {
    if s != [] {
      SortDistinct(s[1..], before);
      SortMembers(s[1..], before);
      forall a | a in Sort(s[1..], before) ensures a.id != s[0].id {
        assert a in s[1..];
      }
      InsertDistinct(s[0], Sort(s[1..], before), before);
    }
  }

  lemma CandidatesDistinct(table: seq<AdRow>, r: Request)
    requires DistinctIds(table)
    ensures DistinctIds(Candidates(table, r))
  {
    FilterKeepsDistinct(table, (a: AdRow) => Live(r, a), (a: AdRow) => a.id);
    SortDistinct(Filter(table, (a: AdRow) => Live(r, a)), QueryOrder);
  }

  lemma SameSessionKeys(session: Id, a: Id, b: Id)
    requires CapKey(session, a) == CapKey(session, b)
    ensures a == b
  {
    var prefix := "ad:freq:" + session + ":";
    assert a == CapKey(session, a)[|prefix|..] && b == CapKey(session, b)[|prefix|..];
  }

  /** A counter never falls during a call, and only the keys of considered ads move. */
  lemma {:induction false} CountersOnlyGrow(ads: seq<AdRow>, r: Request, c: Counters, key: string)
    ensures Count(CountersAfter(ads, r, c), key) >= Count(c, key)
    ensures (forall a :: a in ads ==> CapKey(Session(r), a.id) != key) ==> Count(CountersAfter(ads, r, c), key) == Count(c, key)
  {
    if ads != [] {
      CountersOnlyGrow(ads[..|ads| - 1], r, c, key);
      assert ads[|ads| - 1] in ads;
      assert forall a :: a in ads[..|ads| - 1] ==> a in ads;
    }
  }

  /** Each considered candidate of a session with a key moves its own counter by one. */
  lemma {:induction false} ConsideredCounts(ads: seq<AdRow>, r: Request, c: Counters, ad: AdRow)
    requires DistinctIds(ads) && ad in ads && Considered(r, ad) && Session(r) != ""
    ensures Count(CountersAfter(ads, r, c), CapKey(Session(r), ad.id)) == Count(c, CapKey(Session(r), ad.id)) + 1
  {
    var most, last := ads[..|ads| - 1], ads[|ads| - 1];
    var key := CapKey(Session(r), ad.id);
    if last == ad {
      forall a | a in most ensures CapKey(Session(r), a.id) != key {
        if CapKey(Session(r), a.id) == key {
          SameSessionKeys(Session(r), a.id, ad.id);
        }
      }
      CountersOnlyGrow(most, r, c, key);
    } else {
      assert ad in most;
      ConsideredCounts(most, r, c, ad);
      if CapKey(Session(r), last.id) == key {
        SameSessionKeys(Session(r), last.id, ad.id);
      }
    }
  }

  // ---------------------------------------------------------------- the service

  class AdServer {
    /** The frequency counters kept in Redis. */
    var counters: Counters

    constructor (c: Counters)
      ensures counters == c
    {
      counters := c;
    }

    method IsFrequencyCapped(ad: Id, session: Id) returns (capped: bool)
      modifies this
      ensures session == "" ==> !capped && counters == old(counters)
      ensures session != "" ==>
        counters == Bump(old(counters), CapKey(session, ad)) && capped == (Count(counters, CapKey(session, ad)) > FREQ_CAP)
    {
      if session == "" { return false; }
      var key := CapKey(session, ad);
      counters := counters[key := Count(counters, key) + 1];
      return counters[key] > FREQ_CAP;
    }

    /** The ads for one request: filter, cap, rank, cut. */
    method ServeAds(table: seq<AdRow>, r: Request) returns (served: seq<AdRow>)
      requires DistinctIds(table)
      modifies this
      ensures served == Served(table, r, old(counters))
      ensures counters == CountersAfter(Candidates(table, r), r, old(counters))
      ensures BestServed(table, r, old(counters), served)
    {
      ServedIsBest(table, r, counters);
      hide BestServed;
      var ads := Candidates(table, r);
      CandidatesDistinct(table, r);
      hide Candidates;
      hide EligibleAds;
      hide CountersAfter;
      hide Sort;
      hide Take;
      hide CapKey;
      NoAdsYet(r, counters);
      var eligible: seq<AdRow> := [];
      var i := 0;
      assert ads[..0] == [];
      while i < |ads|
        invariant 0 <= i <= |ads|
        invariant counters == CountersAfter(ads[..i], r, old(counters))
        invariant eligible == EligibleAds(ads[..i], r, old(counters))
      {
        var ad := ads[i];
        OneMoreAd(ads, i, r, old(counters));
        FreshCounter(ads, i, r, old(counters));
        if ad.totalSpent < ad.budget && ad.wallet > 0 && MatchesTargeting(ad.targeting, r.cityId, r.categoryId) {
          var capped := IsFrequencyCapped(ad.id, Session(r));
          if !capped {
            eligible := eligible + [ad];
          }
        }
        i := i + 1;
      }
      assert ads[..i] == ads;
      served := Take(Sort(eligible, RankBefore), r.limit);
    }
  }

  lemma ServedAreDistinct(table: seq<AdRow>, r: Request, c: Counters)
    requires DistinctIds(table)
    ensures DistinctIds(Served(table, r, c))
  {
    CandidatesDistinct(table, r);
    var ads := Candidates(table, r);
    FilterKeepsDistinct(ads, (a: AdRow) => Eligible(r, c, a), (a: AdRow) => a.id);
    SortDistinct(EligibleAds(ads, r, c), RankBefore);
  }

  lemma NoAdsYet(r: Request, c: Counters)
    ensures CountersAfter([], r, c) == c && EligibleAds([], r, c) == []
  {
  }

  /** One more ad moves the counters and the list as the loop body does. */
  lemma OneMoreAd(ads: seq<AdRow>, i: nat, r: Request, c: Counters)
    requires i < |ads|
    ensures CountersAfter(ads[..i + 1], r, c) ==
      if Considered(r, ads[i]) && Session(r) != "" then Bump(CountersAfter(ads[..i], r, c), CapKey(Session(r), ads[i].id))
      else CountersAfter(ads[..i], r, c)
    ensures EligibleAds(ads[..i + 1], r, c) == EligibleAds(ads[..i], r, c) + if Eligible(r, c, ads[i]) then [ads[i]] else []
  {
    assert ads[..i + 1] == ads[..i] + [ads[i]] && ads[..i + 1][..i] == ads[..i];
    FilterConcat(ads[..i], [ads[i]], (a: AdRow) => Eligible(r, c, a));
    FilterOne(ads[i], (a: AdRow) => Eligible(r, c, a));
  }

  /** When the loop reaches an ad, nothing before it in the list has touched its counter. */
  lemma FreshCounter(ads: seq<AdRow>, i: nat, r: Request, c: Counters)
    requires DistinctIds(ads) && i < |ads|
    ensures Count(CountersAfter(ads[..i], r, c), CapKey(Session(r), ads[i].id)) == Count(c, CapKey(Session(r), ads[i].id))
  {
    var key := CapKey(Session(r), ads[i].id);
    forall a | a in ads[..i] ensures CapKey(Session(r), a.id) != key {
      if CapKey(Session(r), a.id) == key {
        SameSessionKeys(Session(r), a.id, ads[i].id);
      }
    }
    CountersOnlyGrow(ads[..i], r, c, key);
  }

  // ---------------------------------------------------------------- the cap over all calls

  datatype Event = Serve(table: seq<AdRow>, request: Request) | Expire(key: string)

  function NextCounters(c: Counters, e: Event): Counters {
    match e
    case Serve(table, r) => CountersAfter(Candidates(table, r), r, c)
    case Expire(key) => c - {key}
  }

  function CountersAt(c: Counters, run: seq<Event>): Counters {
    if run == [] then c else NextCounters(CountersAt(c, run[..|run| - 1]), run[|run| - 1])
  }

  predicate ServedTo(c: Counters, e: Event, session: Id, ad: Id) {
    e.Serve? && Session(e.request) == session
    && exists i :: 0 <= i < |Served(e.table, e.request, c)| && Served(e.table, e.request, c)[i].id == ad
  }

  /** How many calls served the ad to the session key since its counter last expired. */
  function TimesServed(c: Counters, run: seq<Event>, session: Id, ad: Id): nat {
    if run == [] then 0
    else
      var most, last := run[..|run| - 1], run[|run| - 1];
      if last == Expire(CapKey(session, ad)) then 0
      else TimesServed(c, most, session, ad) + (if ServedTo(CountersAt(c, most), last, session, ad) then 1 else 0)
  }

  ghost predicate GoodRun(run: seq<Event>) {
    forall i :: 0 <= i < |run| && run[i].Serve? ==> DistinctIds(run[i].table)
  }

  /** An ad that is served had room under the cap, and its counter moved. */
  lemma ServedMovesCounter(c: Counters, e: Event, session: Id, ad: Id)
    requires ServedTo(c, e, session, ad) && session != "" && DistinctIds(e.table)
    ensures Count(c, CapKey(session, ad)) + 1 <= FREQ_CAP
    ensures Count(NextCounters(c, e), CapKey(session, ad)) == Count(c, CapKey(session, ad)) + 1
  {
    var ads := Candidates(e.table, e.request);
    var served := Served(e.table, e.request, c);
    var i :| 0 <= i < |served| && served[i].id == ad;
    var eligible := EligibleAds(ads, e.request, c);
    SortMembers(eligible, RankBefore);
    assert served[i] in Sort(eligible, RankBefore);
    assert served[i] in eligible;
    CandidatesDistinct(e.table, e.request);
    ConsideredCounts(ads, e.request, c, served[i]);
  }

  lemma {:induction false} ServedWithinCount(run: seq<Event>, session: Id, ad: Id)
    requires GoodRun(run) && session != ""
    ensures 0 <= TimesServed(map[], run, session, ad) <= Count(CountersAt(map[], run), CapKey(session, ad))
    ensures TimesServed(map[], run, session, ad) <= FREQ_CAP
  {
    if run != [] {
      var most, last := run[..|run| - 1], run[|run| - 1];
      var c := CountersAt(map[], most);
      ServedWithinCount(most, session, ad);
      if ServedTo(c, last, session, ad) {
        ServedMovesCounter(c, last, session, ad);
      } else if last.Serve? {
        CountersOnlyGrow(Candidates(last.table, last.request), last.request, c, CapKey(session, ad));
      }
    }
  }

  /** A request without a usable session key: one ad, always the same. */
  const LONE_AD := AdRow("a", true, "FEED", None, None, 0, 0.0, 0, true, 0, None, None, CPM, 1000, 10_000, 0, 1)
  const KEYLESS := Request("FEED", None, None, 1, Some(""), 0)

  lemma KeylessServes(c: Counters)
    ensures Served([LONE_AD], KEYLESS, c) == [LONE_AD]
    ensures CountersAfter(Candidates([LONE_AD], KEYLESS), KEYLESS, c) == c
  {
    assert Live(KEYLESS, LONE_AD) && Eligible(KEYLESS, c, LONE_AD);
    FilterCons(LONE_AD, [], (a: AdRow) => Live(KEYLESS, a));
    FilterCons(LONE_AD, [], (a: AdRow) => Eligible(KEYLESS, c, a));
    assert [LONE_AD] + [] == [LONE_AD] && [LONE_AD][..0] == [];
    SortSingleton(LONE_AD, QueryOrder);
    SortSingleton(LONE_AD, RankBefore);
    assert Filter([LONE_AD], (a: AdRow) => Live(KEYLESS, a)) == [LONE_AD];
    assert Candidates([LONE_AD], KEYLESS) == [LONE_AD];
    assert EligibleAds([LONE_AD], KEYLESS, c) == [LONE_AD];
  }

  lemma {:induction false} KeylessNeverCapped(n: nat)
    ensures var run := seq(n, i => Serve([LONE_AD], KEYLESS));
      TimesServed(map[], run, "", "a") == n && CountersAt(map[], run) == map[] && GoodRun(run)
  {
    var run := seq(n, i => Serve([LONE_AD], KEYLESS));
    if n > 0 {
      KeylessNeverCapped(n - 1);
      assert run[..n - 1] == seq(n - 1, i => Serve([LONE_AD], KEYLESS));
      KeylessServes(map[]);
      assert ServedTo(map[], run[n - 1], "", "a");
    }
  }

  /**
   * Between two expiries of its counter an ad reaches a session key at most `FREQ_CAP` times, over
   * every sequence of calls, exactly for the session keys that are not the empty string.
   */
  lemma CapHoldsExactly(session: Id)
    ensures (forall run, ad :: GoodRun(run) ==> TimesServed(map[], run, session, ad) <= FREQ_CAP) <==> session != ""
  {
    if session != "" {
      forall run, ad | GoodRun(run) ensures TimesServed(map[], run, session, ad) <= FREQ_CAP {
        ServedWithinCount(run, session, ad);
      }
    } else {
      KeylessNeverCapped(FREQ_CAP + 1);
    }
  }
}
