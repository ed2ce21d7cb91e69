/**
 * Ad billing: campaigns, ads, the daily spend table and the ad payment ledger, as the
 * billing service changes them. A table is a sequence of rows and a row's id is its index.
 */
module AdBilling {
  import opened Optional
  import opened Sorting
  import opened Sums

  type UserId = string
  type RowId = nat

  datatype BidType = CPM | CPC
  datatype AdEvent = Impression | Click
  datatype CampaignStatus = DRAFT | ACTIVE | PAUSED | COMPLETED | REJECTED
  datatype AdStatus = AD_PENDING_REVIEW | AD_APPROVED | AD_REJECTED | AD_ACTIVE | AD_PAUSED | AD_COMPLETED
  datatype PauseReason = BUDGET_EXHAUSTED | WALLET_EMPTY | DAILY_BUDGET | MANUAL

  datatype Campaign = Campaign(
    advertiser: UserId, budget: int, totalSpent: int, dailyBudget: Option<int>,
    bidType: BidType, bidAmount: int, status: CampaignStatus, pauseReason: Option<PauseReason>)
  datatype Ad = Ad(campaign: RowId, status: AdStatus, spent: int)
  datatype DailySpend = DailySpend(campaign: RowId, day: int, amount: int)
  datatype AdPayment = AdPayment(campaign: RowId, ad: RowId, amount: int, note: AdEvent)

  datatype Books = Books(
    balance: map<UserId, int>, campaigns: seq<Campaign>, ads: seq<Ad>,
    daily: seq<DailySpend>, adPayments: seq<AdPayment>)

  // ---------------------------------------------------------------- what one event costs

  function ComputeCpmCost(bidAmount: int): int { bidAmount / 1000 }

  function ComputeCpcCost(bidAmount: int): int { bidAmount }

  function UnitCost(c: Campaign): int {
    if c.bidType == CPM then ComputeCpmCost(c.bidAmount) else ComputeCpcCost(c.bidAmount)
  }

  predicate Billable(c: Campaign, event: AdEvent) {
    (event == Impression <==> c.bidType == CPM) && UnitCost(c) > 0
  }

  // ---------------------------------------------------------------- columns that are summed

  function PaidBy(c: RowId): AdPayment -> int { (p: AdPayment) => if p.campaign == c then p.amount else 0 }
  function PaymentOf(c: RowId): AdPayment -> int { (p: AdPayment) => if p.campaign == c then 1 else 0 }
  function SpentOnDay(c: RowId): DailySpend -> int { (d: DailySpend) => if d.campaign == c then d.amount else 0 }
  function SpentByAd(c: RowId): Ad -> int { (a: Ad) => if a.campaign == c then a.spent else 0 }

  /** The ad payments of one user's campaigns. */
  function PaidByUser(campaigns: seq<Campaign>, u: UserId): AdPayment -> int {
    (p: AdPayment) => if p.campaign < |campaigns| && campaigns[p.campaign].advertiser == u then p.amount else 0
  }

  function AdSpend(b: Books, u: UserId): int { Sum(b.adPayments, PaidByUser(b.campaigns, u)) }

  function PaymentCount(b: Books, c: RowId): int { Sum(b.adPayments, PaymentOf(c)) }

  // ---------------------------------------------------------------- well-formed tables

  /** Foreign keys point at rows, and the daily table has one row per campaign and day. */
  ghost predicate Linked(b: Books) {
    && (forall i :: 0 <= i < |b.campaigns| ==> b.campaigns[i].advertiser in b.balance)
    && (forall i :: 0 <= i < |b.ads| ==> b.ads[i].campaign < |b.campaigns|)
    && (forall i :: 0 <= i < |b.daily| ==> b.daily[i].campaign < |b.campaigns|)
    && (forall i :: 0 <= i < |b.adPayments| ==> b.adPayments[i].campaign < |b.campaigns|)
    && UniqueDays(b.daily)
  }

  ghost predicate UniqueDays(daily: seq<DailySpend>) {
    forall i, j :: 0 <= i < j < |daily| ==> daily[i].campaign != daily[j].campaign || daily[i].day != daily[j].day
  }

  /** The four ledgers of one campaign. */
  ghost predicate LedgersAgree(b: Books, c: RowId)
    requires c < |b.campaigns|
  {
    && b.campaigns[c].totalSpent == Sum(b.adPayments, PaidBy(c))
    && b.campaigns[c].totalSpent == Sum(b.daily, SpentOnDay(c))
    && b.campaigns[c].totalSpent == Sum(b.ads, SpentByAd(c))
  }

  /** Every payment of a campaign is one unit cost of that campaign, and positive. */
  ghost predicate UnitPriced(b: Books) {
    forall i :: 0 <= i < |b.adPayments| ==>
      && b.adPayments[i].campaign < |b.campaigns|
      && b.adPayments[i].amount == UnitCost(b.campaigns[b.adPayments[i].campaign]) > 0
  }

  ghost predicate Sound(b: Books) {
    Linked(b) && UnitPriced(b) && forall c: RowId :: c < |b.campaigns| ==> LedgersAgree(b, c)
  }

  // ---------------------------------------------------------------- the debit transaction

  function FindDay(daily: seq<DailySpend>, c: RowId, day: int): (i: nat)
    ensures i <= |daily|
    ensures i < |daily| ==> daily[i].campaign == c && daily[i].day == day
    ensures i == |daily| ==> forall j :: 0 <= j < |daily| ==> daily[j].campaign != c || daily[j].day != day
  {
    FirstWhere(daily, (d: DailySpend) => d.campaign == c && d.day == day)
  }

  function SpentToday(daily: seq<DailySpend>, c: RowId, day: int): int {
    var i := FindDay(daily, c, day);
    if i < |daily| then daily[i].amount else 0
  }

  function Upsert(daily: seq<DailySpend>, c: RowId, day: int, cost: int): seq<DailySpend> {
    var i := FindDay(daily, c, day);
    if i < |daily| then daily[i := daily[i].(amount := daily[i].amount + cost)]
    else daily + [DailySpend(c, day, cost)]
  }

  function Paused(b: Books, c: RowId, reason: PauseReason): Books
    requires c < |b.campaigns|
  {
    b.(campaigns := b.campaigns[c := b.campaigns[c].(status := PAUSED, pauseReason := Some(reason))],
       ads := seq(|b.ads|, i requires 0 <= i < |b.ads| =>
         if b.ads[i].campaign == c && b.ads[i].status == AD_APPROVED then b.ads[i].(status := AD_PAUSED) else b.ads[i]))
  }

  /** Why the transaction refuses a charge; the checks are made in this order. */
  function Obstacle(b: Books, c: RowId, cost: int, day: int): Option<PauseReason>
    requires c < |b.campaigns| && b.campaigns[c].advertiser in b.balance
  {
    var k := b.campaigns[c];
    if k.totalSpent + cost > k.budget then Some(BUDGET_EXHAUSTED)
    else if b.balance[k.advertiser] < cost then Some(WALLET_EMPTY)
    else if k.dailyBudget.Some? && k.dailyBudget.value != 0 && SpentToday(b.daily, c, day) + cost > k.dailyBudget.value
    then Some(DAILY_BUDGET)
    else None
  }

  function Debited(b: Books, ad: RowId, cost: int, event: AdEvent, day: int): Books
    requires ad < |b.ads| && b.ads[ad].campaign < |b.campaigns|
    requires b.campaigns[b.ads[ad].campaign].advertiser in b.balance
  {
    var c := b.ads[ad].campaign;
    var k := b.campaigns[c];
    Books(
      b.balance[k.advertiser := b.balance[k.advertiser] - cost],
      b.campaigns[c := k.(totalSpent := k.totalSpent + cost)],
      b.ads[ad := b.ads[ad].(spent := b.ads[ad].spent + cost)],
      Upsert(b.daily, c, day, cost),
      b.adPayments + [AdPayment(c, ad, cost, event)])
  }

  predicate HasCampaign(b: Books, ad: RowId) {
    ad < |b.ads| && b.ads[ad].campaign < |b.campaigns| && b.campaigns[b.ads[ad].campaign].advertiser in b.balance
  }

  /** One `chargeForImpression` or `chargeForClick`: the books after it, and whether it charged. */
  function Charge(b: Books, ad: RowId, event: AdEvent, day: int): (Books, bool) {
    if !HasCampaign(b, ad) || !Billable(b.campaigns[b.ads[ad].campaign], event) then (b, false)
    else
      var c := b.ads[ad].campaign;
      var cost := UnitCost(b.campaigns[c]);
      match Obstacle(b, c, cost, day)
      case Some(reason) => (Paused(b, c, reason), false)
      case None => (Debited(b, ad, cost, event, day), true)
  }

  // ---------------------------------------------------------------- what a charge does

  /** Rounding down a CPM bid leaves less than one thousand bid units per impression unbilled. */
  lemma {:induction false} CpmRounding(bidAmount: int, impressions: nat)
    ensures 0 <= impressions * bidAmount - 1000 * (impressions * ComputeCpmCost(bidAmount)) <= 999 * impressions
  {
    if impressions > 0 {
      CpmRounding(bidAmount, impressions - 1);
      var cost := ComputeCpmCost(bidAmount);
      assert impressions * bidAmount == (impressions - 1) * bidAmount + bidAmount;
      assert impressions * cost == (impressions - 1) * cost + cost;
      assert 0 <= bidAmount - 1000 * cost <= 999;
    }
  }

  lemma UpsertSum(daily: seq<DailySpend>, c: RowId, day: int, cost: int, other: RowId)
    ensures Sum(Upsert(daily, c, day, cost), SpentOnDay(other))
         == Sum(daily, SpentOnDay(other)) + (if other == c then cost else 0)
  {
    var i := FindDay(daily, c, day);
    if i < |daily| {
      SumUpdate(daily, i, daily[i].(amount := daily[i].amount + cost), SpentOnDay(other));
    } else {
      SumAppend(daily, DailySpend(c, day, cost), SpentOnDay(other));
    }
  }

  /** A paused campaign keeps every amount: only status columns change. */
  lemma PausedKeepsAmounts(b: Books, c: RowId, reason: PauseReason)
    requires c < |b.campaigns| && Sound(b)
    ensures var after := Paused(b, c, reason);
      && Sound(after) && after.balance == b.balance && after.daily == b.daily && after.adPayments == b.adPayments
      && |after.campaigns| == |b.campaigns|
      && (forall u :: AdSpend(after, u) == AdSpend(b, u))
  {
    var after := Paused(b, c, reason);
    forall d: RowId | d < |after.campaigns| ensures LedgersAgree(after, d) {
      assert LedgersAgree(b, d);
      SumCongruent(after.ads, b.ads, SpentByAd(d), SpentByAd(d));
    }
    forall u ensures AdSpend(after, u) == AdSpend(b, u) {
      SumCongruent(after.adPayments, b.adPayments, PaidByUser(after.campaigns, u), PaidByUser(b.campaigns, u));
    }
  }

  /** A debit moves one cost through all four ledgers of its own campaign and no other. */
  lemma DebitedKeepsLedgers(b: Books, ad: RowId, cost: int, event: AdEvent, day: int, c: RowId)
    requires Sound(b) && HasCampaign(b, ad) && c < |b.campaigns|
    ensures LedgersAgree(Debited(b, ad, cost, event, day), c)
  {
    assert LedgersAgree(b, c);
    var k := b.ads[ad].campaign;
    SumAppend(b.adPayments, AdPayment(k, ad, cost, event), PaidBy(c));
    UpsertSum(b.daily, k, day, cost, c);
    SumUpdate(b.ads, ad, b.ads[ad].(spent := b.ads[ad].spent + cost), SpentByAd(c));
  }

  lemma DebitedKeepsSound(b: Books, ad: RowId, event: AdEvent, day: int)
    requires Sound(b) && HasCampaign(b, ad) && UnitCost(b.campaigns[b.ads[ad].campaign]) > 0
    ensures Sound(Debited(b, ad, UnitCost(b.campaigns[b.ads[ad].campaign]), event, day))
  {
    var cost := UnitCost(b.campaigns[b.ads[ad].campaign]);
    var after := Debited(b, ad, cost, event, day);
    forall c: RowId | c < |after.campaigns| ensures LedgersAgree(after, c) {
      DebitedKeepsLedgers(b, ad, cost, event, day, c);
    }
    assert UnitPriced(after);
  }

  /** Every charge attempt keeps all ledgers in agreement. */
  lemma ChargeKeepsSound(b: Books, ad: RowId, event: AdEvent, day: int)
    requires Sound(b)
    ensures Sound(Charge(b, ad, event, day).0)
  {
    if HasCampaign(b, ad) && Billable(b.campaigns[b.ads[ad].campaign], event) {
      var c := b.ads[ad].campaign;
      match Obstacle(b, c, UnitCost(b.campaigns[c]), day)
      case Some(reason) => PausedKeepsAmounts(b, c, reason);
      case None => DebitedKeepsSound(b, ad, event, day);
    }
  }

  /** What an impression or a click costs: a thousandth of a CPM bid, rounded down, or the whole CPC bid. */
  lemma UnitCostExactly(c: Campaign)
    ensures c.bidType == CPM ==> 1000 * UnitCost(c) <= c.bidAmount < 1000 * UnitCost(c) + 1000
    ensures c.bidType == CPC ==> UnitCost(c) == c.bidAmount
  {
  }

  /** The daily rows of other campaigns and other days. */
  predicate OtherDay(d: DailySpend, c: RowId, day: int) { d.campaign != c || d.day != day }

  lemma UpsertKeepsOthers(daily: seq<DailySpend>, c: RowId, day: int, cost: int)
    ensures var after := Upsert(daily, c, day, cost);
      && |daily| <= |after| <= |daily| + 1
      && (forall i :: 0 <= i < |daily| && OtherDay(daily[i], c, day) ==> after[i] == daily[i])
      && (|after| > |daily| ==> after[|daily|] == DailySpend(c, day, cost) && forall i :: 0 <= i < |daily| ==> OtherDay(daily[i], c, day))
      && (forall i :: 0 <= i < |daily| ==> after[i].campaign == daily[i].campaign && after[i].day == daily[i].day)
  {
  }

  /** No row of another campaign changes, and no other wallet. */
  ghost predicate Confined(before: Books, after: Books, c: RowId)
    requires c < |before.campaigns|
  {
    && |after.campaigns| == |before.campaigns| && |after.ads| == |before.ads|
    && (forall d :: 0 <= d < |before.campaigns| && d != c ==> after.campaigns[d] == before.campaigns[d])
    && (forall i :: 0 <= i < |before.ads| && before.ads[i].campaign != c ==> after.ads[i] == before.ads[i])
    && before.adPayments <= after.adPayments
    && (forall i :: |before.adPayments| <= i < |after.adPayments| ==> after.adPayments[i].campaign == c)
    && after.balance.Keys == before.balance.Keys
    && (forall u :: u in before.balance && u != before.campaigns[c].advertiser ==> after.balance[u] == before.balance[u])
  }

  /** A charge writes one payment and adds its cost to one ad and to the spend of its campaign, and to nothing else. */
  ghost predicate ChargedOnce(before: Books, after: Books, ad: RowId, cost: int, event: AdEvent)
    requires HasCampaign(before, ad)
  {
    var c := before.ads[ad].campaign;
    && after.adPayments == before.adPayments + [AdPayment(c, ad, cost, event)]
    && after.campaigns == before.campaigns[c := before.campaigns[c].(totalSpent := before.campaigns[c].totalSpent + cost)]
    && after.ads == before.ads[ad := before.ads[ad].(spent := before.ads[ad].spent + cost)]
  }

  /** A refusal stops the campaign and exactly its approved ads, and names the first limit that is exceeded. */
  ghost predicate StoppedBy(before: Books, after: Books, c: RowId, cost: int, day: int)
    requires c < |before.campaigns| == |after.campaigns| && |after.ads| == |before.ads|
    requires before.campaigns[c].advertiser in before.balance
  {
    var k, stopped := before.campaigns[c], after.campaigns[c];
    && stopped == k.(status := PAUSED, pauseReason := stopped.pauseReason)
    && (stopped.pauseReason == Some(BUDGET_EXHAUSTED) <==> k.budget - k.totalSpent < cost)
    && (stopped.pauseReason == Some(WALLET_EMPTY) <==> k.budget - k.totalSpent >= cost && before.balance[k.advertiser] < cost)
    && (stopped.pauseReason == Some(DAILY_BUDGET) <==>
          k.budget - k.totalSpent >= cost && before.balance[k.advertiser] >= cost)
    && (stopped.pauseReason == Some(DAILY_BUDGET) ==>
          k.dailyBudget.Some? && k.dailyBudget.value != 0 && k.dailyBudget.value - SpentToday(before.daily, c, day) < cost)
    && (forall i :: 0 <= i < |before.ads| && before.ads[i].campaign == c ==>
          after.ads[i] == if before.ads[i].status == AD_APPROVED then before.ads[i].(status := AD_PAUSED) else before.ads[i])
  }

  /** The event is one its campaign pays for: impressions of CPM campaigns, clicks of CPC ones, at a positive price. */
  predicate PaysFor(k: Campaign, event: AdEvent) {
    UnitCost(k) > 0 && match event case Impression => k.bidType == CPM case Click => k.bidType == CPC
  }

  /** One charge attempt, row by row: what it writes, and that nothing of another campaign moves. */
  ghost predicate ChargeOutcome(b: Books, after: Books, charged: bool, ad: RowId, event: AdEvent, day: int) {
    if !HasCampaign(b, ad) then after == b && !charged
    else
      var c := b.ads[ad].campaign;
      && Confined(b, after, c)
      && (charged ==> ChargedOnce(b, after, ad, UnitCost(b.campaigns[c]), event))
      && (!charged && PaysFor(b.campaigns[c], event) ==> StoppedBy(b, after, c, UnitCost(b.campaigns[c]), day))
      && (!PaysFor(b.campaigns[c], event) ==> after == b && !charged)
  }

  lemma DebitIsConfined(b: Books, ad: RowId, cost: int, event: AdEvent, day: int)
    requires HasCampaign(b, ad)
    ensures var c := b.ads[ad].campaign; var refusal := Obstacle(b, c, cost, day);
      var after := if refusal.Some? then Paused(b, c, refusal.value) else Debited(b, ad, cost, event, day);
      && Confined(b, after, c)
      && (if refusal.Some? then StoppedBy(b, after, c, cost, day) else ChargedOnce(b, after, ad, cost, event))
  {
  }

  lemma ChargeIsConfined(b: Books, ad: RowId, event: AdEvent, day: int)
    ensures var (after, charged) := Charge(b, ad, event, day); ChargeOutcome(b, after, charged, ad, event, day)
  {
    if HasCampaign(b, ad) {
      DebitIsConfined(b, ad, UnitCost(b.campaigns[b.ads[ad].campaign]), event, day);
      hide Confined;
      hide ChargedOnce;
      hide StoppedBy;
    }
  }

  /** The amounts a charge attempt may touch, for comparing two states. */
  ghost predicate SameMoney(a: Books, b: Books) {
    && a.balance == b.balance && a.daily == b.daily && a.adPayments == b.adPayments
    && |a.campaigns| == |b.campaigns| && |a.ads| == |b.ads|
    && (forall c :: 0 <= c < |a.campaigns| ==> a.campaigns[c].totalSpent == b.campaigns[c].totalSpent)
    && (forall i :: 0 <= i < |a.ads| ==> a.ads[i].spent == b.ads[i].spent)
  }

  /**
   * A charge happens exactly when wallet, budget and any non-zero daily limit can carry the
   * cost. Then one unit cost leaves the advertiser's wallet and nobody else's, and the limits
   * still hold; otherwise no money moves at all.
   */
  lemma ChargeStaysWithinLimits(b: Books, ad: RowId, event: AdEvent, day: int)
    requires Sound(b) && ad < |b.ads|
    ensures var c := b.ads[ad].campaign; var k := b.campaigns[c]; var cost := UnitCost(k);
      var (after, charged) := Charge(b, ad, event, day);
      && (charged <==>
          && Billable(k, event)
          && k.totalSpent + cost <= k.budget && cost <= b.balance[k.advertiser]
          && (k.dailyBudget.Some? && k.dailyBudget.value != 0 ==> SpentToday(b.daily, c, day) + cost <= k.dailyBudget.value))
      && (charged ==>
          && after.balance == b.balance[k.advertiser := b.balance[k.advertiser] - cost]
          && after.balance[k.advertiser] >= 0
          && after.campaigns[c].totalSpent == k.totalSpent + cost <= after.campaigns[c].budget
          && SpentToday(after.daily, c, day) == SpentToday(b.daily, c, day) + cost
          && (k.dailyBudget.Some? && k.dailyBudget.value != 0 ==> SpentToday(after.daily, c, day) <= k.dailyBudget.value))
      && (!charged ==> SameMoney(after, b))
  {
    var c := b.ads[ad].campaign;
    var cost := UnitCost(b.campaigns[c]);
    if Charge(b, ad, event, day).1 {
      SpentTodayAfterUpsert(b.daily, c, day, cost);
    }
  }

  lemma SpentTodayAfterUpsert(daily: seq<DailySpend>, c: RowId, day: int, cost: int)
    requires UniqueDays(daily)
    ensures SpentToday(Upsert(daily, c, day, cost), c, day) == SpentToday(daily, c, day) + cost
    ensures UniqueDays(Upsert(daily, c, day, cost))
  {
    var after := Upsert(daily, c, day, cost);
    var i, j := FindDay(daily, c, day), FindDay(after, c, day);
    assert i < |after| && after[i].campaign == c && after[i].day == day;
    assert j < |after|;
    assert i == j;
  }

  /** A charge takes from a user's wallet exactly what it adds to that user's ad spend. */
  lemma ChargeConservesWallet(b: Books, ad: RowId, event: AdEvent, day: int, u: UserId)
    requires Sound(b) && u in b.balance
    ensures var after := Charge(b, ad, event, day).0;
      && after.balance.Keys == b.balance.Keys
      && after.balance[u] + AdSpend(after, u) == b.balance[u] + AdSpend(b, u)
      && (after.balance[u] == b.balance[u] || after.balance[u] >= 0)
  {
    var (after, charged) := Charge(b, ad, event, day);
    if charged {
      var c := b.ads[ad].campaign;
      var row := AdPayment(c, ad, UnitCost(b.campaigns[c]), event);
      SumAppend(b.adPayments, row, PaidByUser(after.campaigns, u));
      SumCongruent(b.adPayments, b.adPayments, PaidByUser(after.campaigns, u), PaidByUser(b.campaigns, u));
    } else if HasCampaign(b, ad) && Billable(b.campaigns[b.ads[ad].campaign], event) {
      var c := b.ads[ad].campaign;
      PausedKeepsAmounts(b, c, Obstacle(b, c, UnitCost(b.campaigns[c]), day).value);
    }
  }

  /** A campaign's spend is its unit cost times its number of payments. */
  lemma SpendIsCostTimesCount(b: Books, c: RowId)
    requires Sound(b) && c < |b.campaigns|
    ensures b.campaigns[c].totalSpent == UnitCost(b.campaigns[c]) * PaymentCount(b, c)
    ensures PaymentCount(b, c) >= 0
  {
    assert LedgersAgree(b, c);
    SumScaled(b.adPayments, PaidBy(c), PaymentOf(c), UnitCost(b.campaigns[c]));
    SumNonNegative(b.adPayments, PaymentOf(c));
  }

  // ---------------------------------------------------------------- the service

  /** The billing service over its tables; each public method is one transaction. */
  class BillingService {
    var balance: map<UserId, int>
    var campaigns: seq<Campaign>
    var ads: seq<Ad>
    var daily: seq<DailySpend>
    var adPayments: seq<AdPayment>

    function View(): Books
      reads this
    {
      Books(balance, campaigns, ads, daily, adPayments)
    }

    constructor (b: Books)
      ensures View() == b
    {
      balance, campaigns, ads, daily, adPayments := b.balance, b.campaigns, b.ads, b.daily, b.adPayments;
    }

    method PauseCampaign(c: RowId, reason: PauseReason)
      requires c < |campaigns|
      modifies this`campaigns, this`ads
      ensures View() == Paused(old(View()), c, reason)
      ensures campaigns == old(campaigns)[c := old(campaigns)[c].(status := PAUSED, pauseReason := Some(reason))]
      ensures |ads| == |old(ads)| && forall i :: 0 <= i < |ads| ==>
        ads[i] == if old(ads)[i].campaign == c && old(ads)[i].status == AD_APPROVED then old(ads)[i].(status := AD_PAUSED) else old(ads)[i]
    {
      campaigns := campaigns[c := campaigns[c].(status := PAUSED, pauseReason := Some(reason))];
      ghost var paused := Paused(old(View()), c, reason);
      var i := 0;
      while i < |ads|
        invariant 0 <= i <= |ads| == |old(ads)|
        invariant campaigns == paused.campaigns
        invariant forall j :: 0 <= j < i ==> ads[j] == paused.ads[j]
        invariant forall j :: i <= j < |ads| ==> ads[j] == old(ads)[j]
      {
        if ads[i].campaign == c && ads[i].status == AD_APPROVED {
          ads := ads[i := ads[i].(status := AD_PAUSED)];
        }
        i := i + 1;
      }
      assert ads == paused.ads;
    }

    method Debit(ad: RowId, cost: int, event: AdEvent, day: int) returns (charged: bool)
      requires HasCampaign(View(), ad)
      modifies this
      ensures var before := old(View()); var c := before.ads[ad].campaign;
        match Obstacle(before, c, cost, day)
        case Some(reason) => !charged && View() == Paused(before, c, reason)
        case None => charged && View() == Debited(before, ad, cost, event, day)
      ensures Confined(old(View()), View(), old(ads)[ad].campaign)
      ensures if charged then ChargedOnce(old(View()), View(), ad, cost, event)
        else StoppedBy(old(View()), View(), old(ads)[ad].campaign, cost, day)
    {
      DebitIsConfined(View(), ad, cost, event, day);
      hide Confined;
      hide ChargedOnce;
      hide StoppedBy;
      var c := ads[ad].campaign;
      var current := campaigns[c];
      if current.totalSpent + cost > current.budget {
        PauseCampaign(c, BUDGET_EXHAUSTED);
        return false;
      }
      if balance[current.advertiser] < cost {
        PauseCampaign(c, WALLET_EMPTY);
        return false;
      }
      if current.dailyBudget.Some? && current.dailyBudget.value != 0 {
        if SpentToday(daily, c, day) + cost > current.dailyBudget.value {
          PauseCampaign(c, DAILY_BUDGET);
          return false;
        }
      }
      balance := balance[current.advertiser := balance[current.advertiser] - cost];
      campaigns := campaigns[c := campaigns[c].(totalSpent := campaigns[c].totalSpent + cost)];
      ads := ads[ad := ads[ad].(spent := ads[ad].spent + cost)];
      daily := Upsert(daily, c, day, cost);
      adPayments := adPayments + [AdPayment(c, ad, cost, event)];
      return true;
    }

    method ChargeForImpression(ad: RowId, day: int) returns (charged: bool, cost: int)
      modifies this
      ensures (View(), charged) == Charge(old(View()), ad, Impression, day)
      ensures ChargeOutcome(old(View()), View(), charged, ad, Impression, day)
      ensures cost == if charged then ComputeCpmCost(old(campaigns)[old(ads)[ad].campaign].bidAmount) else 0
    {
      ChargeIsConfined(View(), ad, Impression, day);
      hide ChargeOutcome;
      charged, cost := false, 0;
      if HasCampaign(View(), ad) && campaigns[ads[ad].campaign].bidType == CPM {
        var price := ComputeCpmCost(campaigns[ads[ad].campaign].bidAmount);
        if price > 0 {
          charged := Debit(ad, price, Impression, day);
          cost := if charged then price else 0;
        }
      }
    }

    method ChargeForClick(ad: RowId, day: int) returns (charged: bool, cost: int)
      modifies this
      ensures (View(), charged) == Charge(old(View()), ad, Click, day)
      ensures ChargeOutcome(old(View()), View(), charged, ad, Click, day)
      ensures cost == if charged then ComputeCpcCost(old(campaigns)[old(ads)[ad].campaign].bidAmount) else 0
    {
      ChargeIsConfined(View(), ad, Click, day);
      hide ChargeOutcome;
      charged, cost := false, 0;
      if HasCampaign(View(), ad) && campaigns[ads[ad].campaign].bidType == CPC {
        var price := ComputeCpcCost(campaigns[ads[ad].campaign].bidAmount);
        if price > 0 {
          charged := Debit(ad, price, Click, day);
          cost := if charged then price else 0;
        }
      }
    }
  }
}
