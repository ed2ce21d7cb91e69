/**
 * Campaign management around the billing tables: advertisers create campaigns and ads, and
 * edit a campaign in two database round trips (check, then write) that other requests may
 * fall between.
 */
module AdCampaigns {
  import opened Optional
  import opened Sums
  import opened AdBilling

  /** The fields an advertiser may send; an absent field is left alone. */
  datatype CampaignInput = CampaignInput(
    status: Option<CampaignStatus>, budget: Option<int>, dailyBudget: Option<Option<int>>)

  /** An edit whose checks have passed and whose write is still to come. */
  datatype PendingWrite = PendingWrite(campaign: RowId, input: CampaignInput)

  datatype Desk = Desk(books: Books, pending: seq<Option<PendingWrite>>)

  datatype Action =
    | CreateCampaign(advertiser: UserId, budget: int, dailyBudget: Option<int>, bidType: BidType, bidAmount: int)
    | CreateAd(campaign: RowId)
    | ReviewAd(ad: RowId, approve: bool)
    | ResubmitAd(ad: RowId)
    | SetAdStatus(ad: RowId, status: AdStatus)
    | ChargeAd(ad: RowId, event: AdEvent, day: int)
    | CheckUpdate(user: UserId, campaign: RowId, input: CampaignInput)
    | WriteUpdate(ticket: RowId)

  const MIN_BUDGET := 10000
  const MIN_BID := 100

  predicate ValidDaily(daily: Option<int>) { daily.Some? ==> daily.value >= MIN_BUDGET }

  predicate ValidInput(input: CampaignInput) {
    && (input.status.Some? ==> input.status.value in {ACTIVE, PAUSED})
    && (input.budget.Some? ==> input.budget.value >= MIN_BUDGET)
    && (input.dailyBudget.Some? ==> ValidDaily(input.dailyBudget.value))
  }

  /** The wallet covers one event and some ad is approved. */
  predicate MayActivate(b: Books, c: RowId)
    requires c < |b.campaigns| && b.campaigns[c].advertiser in b.balance
  {
    && 0 < UnitCost(b.campaigns[c]) <= b.balance[b.campaigns[c].advertiser]
    && exists i :: 0 <= i < |b.ads| && b.ads[i].campaign == c && b.ads[i].status == AD_APPROVED
  }

  predicate UpdateAllowed(b: Books, user: UserId, c: RowId, input: CampaignInput) {
    && ValidInput(input)
    && c < |b.campaigns| && b.campaigns[c].advertiser == user && user in b.balance
    && (input.status == Some(ACTIVE) ==> MayActivate(b, c))
    && (input.budget.Some? ==> input.budget.value >= b.campaigns[c].totalSpent)
  }

  function Edited(c: Campaign, input: CampaignInput): Campaign {
    c.(status := if input.status.Some? then input.status.value else c.status,
       pauseReason := if input.status == Some(PAUSED) then Some(MANUAL)
                      else if input.status == Some(ACTIVE) then None else c.pauseReason,
       budget := if input.budget.Some? then input.budget.value else c.budget,
       dailyBudget := if input.dailyBudget.Some? then input.dailyBudget.value else c.dailyBudget)
  }

  function Act(d: Desk, a: Action): Desk {
    var b := d.books;
    match a
    case CreateCampaign(user, budget, daily, bidType, bid) =>
      if user !in b.balance || budget < MIN_BUDGET || bid < MIN_BID || !ValidDaily(daily)
         || (daily.Some? && daily.value > budget)
      then d
      else d.(books := b.(campaigns := b.campaigns + [Campaign(user, budget, 0, daily, bidType, bid, DRAFT, None)]))
    case CreateAd(c) =>
      if c >= |b.campaigns| then d
      else d.(books := b.(ads := b.ads + [Ad(c, AD_PENDING_REVIEW, 0)]))
    case ReviewAd(ad, approve) =>
      if ad >= |b.ads| || b.ads[ad].status != AD_PENDING_REVIEW then d
      else d.(books := b.(ads := b.ads[ad := b.ads[ad].(status := if approve then AD_APPROVED else AD_REJECTED)]))
    case ResubmitAd(ad) =>
      if ad >= |b.ads| || b.ads[ad].status != AD_REJECTED then d
      else d.(books := b.(ads := b.ads[ad := b.ads[ad].(status := AD_PENDING_REVIEW)]))
    case SetAdStatus(ad, status) =>
      if ad >= |b.ads| then d else d.(books := b.(ads := b.ads[ad := b.ads[ad].(status := status)]))
    case ChargeAd(ad, event, day) => d.(books := Charge(b, ad, event, day).0)
    case CheckUpdate(user, c, input) =>
      if UpdateAllowed(b, user, c, input) then d.(pending := d.pending + [Some(PendingWrite(c, input))]) else d
    case WriteUpdate(k) =>
      if k >= |d.pending| || d.pending[k].None? || d.pending[k].value.campaign >= |b.campaigns| then d
      else
        var w := d.pending[k].value;
        Desk(b.(campaigns := b.campaigns[w.campaign := Edited(b.campaigns[w.campaign], w.input)]), d.pending[k := None])
  }

  // ---------------------------------------------------------------- whom each action concerns, and what it writes

  /** The action is about an ad of the campaign, or writes an edit of it. */
  ghost predicate Concerns(d: Desk, a: Action, c: RowId) {
    match a
    case ReviewAd(ad, _) => ad < |d.books.ads| && d.books.ads[ad].campaign == c
    case ResubmitAd(ad) => ad < |d.books.ads| && d.books.ads[ad].campaign == c
    case SetAdStatus(ad, _) => ad < |d.books.ads| && d.books.ads[ad].campaign == c
    case ChargeAd(ad, _, _) => ad < |d.books.ads| && d.books.ads[ad].campaign == c
    case WriteUpdate(k) => k < |d.pending| && d.pending[k].Some? && d.pending[k].value.campaign == c
    case _ => false
  }

  /** An action leaves every other campaign and all its ads as they are. */
  lemma OthersAreUntouched(d: Desk, a: Action, c: RowId)
    requires c < |d.books.campaigns| && !Concerns(d, a, c)
    ensures var before, after := d.books, Act(d, a).books;
      && c < |after.campaigns| && after.campaigns[c] == before.campaigns[c]
      && |before.ads| <= |after.ads|
      && (forall i :: 0 <= i < |before.ads| && before.ads[i].campaign == c ==> after.ads[i] == before.ads[i])
  {
    if a.ChargeAd? {
      ChargeIsConfined(d.books, a.ad, a.event, a.day);
      hide Charge;
    }
  }

  /** An action on one ad changes the status of that ad alone, by the rules of its review. */
  lemma AdActionsExactly(d: Desk, ad: RowId, approve: bool, status: AdStatus)
    requires ad < |d.books.ads|
    ensures Act(d, ReviewAd(ad, approve)) ==
      if d.books.ads[ad].status != AD_PENDING_REVIEW then d
      else d.(books := d.books.(ads := d.books.ads[ad := d.books.ads[ad].(status := if approve then AD_APPROVED else AD_REJECTED)]))
    ensures Act(d, ResubmitAd(ad)) ==
      if d.books.ads[ad].status != AD_REJECTED then d
      else d.(books := d.books.(ads := d.books.ads[ad := d.books.ads[ad].(status := AD_PENDING_REVIEW)]))
    ensures Act(d, SetAdStatus(ad, status)) ==
      d.(books := d.books.(ads := d.books.ads[ad := d.books.ads[ad].(status := status)]))
  {
  }

  /** New rows: a campaign starts as a draft with nothing spent, an ad waits for its review. */
  lemma CreationsExactly(d: Desk, user: UserId, budget: int, daily: Option<int>, bidType: BidType, bid: int, c: RowId)
    ensures Act(d, CreateCampaign(user, budget, daily, bidType, bid)) ==
      if user in d.books.balance && budget >= 10_000 && bid >= 100 && (daily.Some? ==> 10_000 <= daily.value <= budget)
      then d.(books := d.books.(campaigns := d.books.campaigns + [Campaign(user, budget, 0, daily, bidType, bid, DRAFT, None)]))
      else d
    ensures Act(d, CreateAd(c)) ==
      if c < |d.books.campaigns| then d.(books := d.books.(ads := d.books.ads + [Ad(c, AD_PENDING_REVIEW, 0)])) else d
  {
  }

  /** The checks of an edit: its owner, its values, money and an approved ad for activation, no budget under the spend. */
  ghost predicate EditPasses(b: Books, user: UserId, c: RowId, input: CampaignInput) {
    && c < |b.campaigns| && b.campaigns[c].advertiser == user && user in b.balance
    && (forall status :: input.status == Some(status) ==> status == ACTIVE || status == PAUSED)
    && (forall budget :: input.budget == Some(budget) ==> 10_000 <= budget && b.campaigns[c].totalSpent <= budget)
    && (forall daily :: input.dailyBudget == Some(Some(daily)) ==> 10_000 <= daily)
    && (input.status == Some(ACTIVE) ==>
          && UnitCost(b.campaigns[c]) >= 1 && b.balance[user] >= UnitCost(b.campaigns[c])
          && exists ad :: ad in b.ads && ad.campaign == c && ad.status == AD_APPROVED)
  }

  lemma CheckExactly(d: Desk, user: UserId, c: RowId, input: CampaignInput)
    ensures Act(d, CheckUpdate(user, c, input)) ==
      if EditPasses(d.books, user, c, input) then d.(pending := d.pending + [Some(PendingWrite(c, input))]) else d
  {
    var b := d.books;
    if ad :| ad in b.ads && ad.campaign == c && ad.status == AD_APPROVED {
      var i :| 0 <= i < |b.ads| && b.ads[i] == ad;
      assert b.ads[i].campaign == c && b.ads[i].status == AD_APPROVED;
    }
    assert UpdateAllowed(b, user, c, input) <==> EditPasses(b, user, c, input);
  }

  /** The write of an edit: what is given is set, pausing by hand says so, activating clears the reason, the rest stays. */
  lemma WriteExactly(d: Desk, k: RowId)
    requires k < |d.pending| && d.pending[k].Some? && d.pending[k].value.campaign < |d.books.campaigns|
    ensures var w := d.pending[k].value; var t := Act(d, WriteUpdate(k)); var b := d.books;
      && t.pending == d.pending[k := None]
      && |t.books.campaigns| == |b.campaigns| && t.books == b.(campaigns := t.books.campaigns)
      && (forall c :: 0 <= c < |b.campaigns| && c != w.campaign ==> t.books.campaigns[c] == b.campaigns[c])
      && var before, after := b.campaigns[w.campaign], t.books.campaigns[w.campaign];
         && (match w.input.status case Some(status) => after.status == status case None => after.status == before.status)
         && (match w.input.budget case Some(n) => after.budget == n case None => after.budget == before.budget)
         && (match w.input.dailyBudget case Some(n) => after.dailyBudget == n case None => after.dailyBudget == before.dailyBudget)
         && after.pauseReason == (match w.input.status
              case Some(PAUSED) => Some(MANUAL) case Some(ACTIVE) => None case _ => before.pauseReason)
         && after.advertiser == before.advertiser && after.totalSpent == before.totalSpent
         && after.bidType == before.bidType && after.bidAmount == before.bidAmount
  {
  }

  // ---------------------------------------------------------------- what every action keeps

  /** New campaigns start with empty ledgers. */
  lemma NewCampaignKeepsSound(b: Books, k: Campaign)
    requires Sound(b) && k.advertiser in b.balance && k.totalSpent == 0
    ensures Sound(b.(campaigns := b.campaigns + [k]))
  {
    var after := b.(campaigns := b.campaigns + [k]);
    var n := |b.campaigns|;
    forall c: RowId | c < |after.campaigns| ensures LedgersAgree(after, c) {
      if c < n {
        assert LedgersAgree(b, c);
      } else {
        SumZero(b.adPayments, PaidBy(n));
        SumZero(b.daily, SpentOnDay(n));
        SumZero(b.ads, SpentByAd(n));
      }
    }
  }

  lemma NewAdKeepsSound(b: Books, ad: Ad)
    requires Sound(b) && ad.campaign < |b.campaigns| && ad.spent == 0
    ensures Sound(b.(ads := b.ads + [ad]))
  {
    var after := b.(ads := b.ads + [ad]);
    forall c: RowId | c < |after.campaigns| ensures LedgersAgree(after, c) {
      assert LedgersAgree(b, c);
      SumAppend(b.ads, ad, SpentByAd(c));
    }
  }

  lemma AdStatusKeepsSound(b: Books, i: RowId, status: AdStatus)
    requires Sound(b) && i < |b.ads|
    ensures Sound(b.(ads := b.ads[i := b.ads[i].(status := status)]))
  {
    var after := b.(ads := b.ads[i := b.ads[i].(status := status)]);
    forall c: RowId | c < |after.campaigns| ensures LedgersAgree(after, c) {
      assert LedgersAgree(b, c);
      SumUpdate(b.ads, i, after.ads[i], SpentByAd(c));
    }
  }

  lemma EditKeepsSound(b: Books, c: RowId, input: CampaignInput)
    requires Sound(b) && c < |b.campaigns|
    ensures Sound(b.(campaigns := b.campaigns[c := Edited(b.campaigns[c], input)]))
  {
    var after := b.(campaigns := b.campaigns[c := Edited(b.campaigns[c], input)]);
    forall d: RowId | d < |after.campaigns| ensures LedgersAgree(after, d) {
      assert LedgersAgree(b, d);
    }
  }

  /** No action of an advertiser, a moderator or the billing service breaks the ledgers. */
  lemma ActKeepsSound(d: Desk, a: Action)
    requires Sound(d.books)
    ensures Sound(Act(d, a).books)
  {
    var b := d.books;
    if Act(d, a) != d {
      match a
      case CreateCampaign(user, budget, daily, bidType, bid) =>
        NewCampaignKeepsSound(b, Campaign(user, budget, 0, daily, bidType, bid, DRAFT, None));
      case CreateAd(c) => NewAdKeepsSound(b, Ad(c, AD_PENDING_REVIEW, 0));
      case ReviewAd(ad, approve) => AdStatusKeepsSound(b, ad, if approve then AD_APPROVED else AD_REJECTED);
      case ResubmitAd(ad) => AdStatusKeepsSound(b, ad, AD_PENDING_REVIEW);
      case SetAdStatus(ad, status) => AdStatusKeepsSound(b, ad, status);
      case ChargeAd(ad, event, day) => ChargeKeepsSound(b, ad, event, day);
      case CheckUpdate(_, _, _) =>
      case WriteUpdate(k) => EditKeepsSound(b, d.pending[k].value.campaign, d.pending[k].value.input);
    }
  }

  /** The price and the owner of a campaign never change, its spend never falls, and no campaign disappears. */
  lemma ActKeepsTerms(d: Desk, a: Action, c: RowId)
    requires Sound(d.books) && c < |d.books.campaigns|
    ensures var before, after := d.books, Act(d, a).books;
      && |before.campaigns| <= |after.campaigns|
      && after.campaigns[c].advertiser == before.campaigns[c].advertiser
      && UnitCost(after.campaigns[c]) == UnitCost(before.campaigns[c])
      && after.campaigns[c].totalSpent >= before.campaigns[c].totalSpent
      && after.campaigns[c].totalSpent
         <= if before.campaigns[c].totalSpent > before.campaigns[c].budget
            then before.campaigns[c].totalSpent else before.campaigns[c].budget
  {
  }

  /** What leaves a user's wallet through ads is that user's ad spend, for every action. */
  lemma ActConservesWallet(d: Desk, a: Action, u: UserId)
    requires Sound(d.books) && u in d.books.balance
    ensures var before, after := d.books, Act(d, a).books;
      && after.balance.Keys == before.balance.Keys
      && after.balance[u] + AdSpend(after, u) == before.balance[u] + AdSpend(before, u)
      && (after.balance[u] == before.balance[u] || after.balance[u] >= 0)
  {
    var before, after := d.books, Act(d, a).books;
    if a.ChargeAd? {
      ChargeConservesWallet(before, a.ad, a.event, a.day, u);
    } else {
      SumCongruent(before.adPayments, after.adPayments, PaidByUser(before.campaigns, u), PaidByUser(after.campaigns, u));
    }
  }

  // ---------------------------------------------------------------- spend against budget

  ghost predicate WithinBudget(b: Books) {
    forall c: RowId :: c < |b.campaigns| ==> b.campaigns[c].totalSpent <= b.campaigns[c].budget
  }

  /** The write of an edit that lowers the budget under what was spent after its check. */
  predicate WritesUnderSpend(d: Desk, a: Action) {
    && a.WriteUpdate? && a.ticket < |d.pending| && d.pending[a.ticket].Some?
    && var w := d.pending[a.ticket].value;
       w.campaign < |d.books.campaigns| && w.input.budget.Some?
       && w.input.budget.value < d.books.campaigns[w.campaign].totalSpent
  }

  /** Of all actions only a late write can leave a campaign over budget, and it does exactly when it undercuts the spend. */
  lemma BudgetHoldsUnlessUndercut(d: Desk, a: Action)
    requires WithinBudget(d.books)
    ensures WithinBudget(Act(d, a).books) <==> !WritesUnderSpend(d, a)
  {
    var after := Act(d, a).books;
    if WritesUnderSpend(d, a) {
      var c := d.pending[a.ticket].value.campaign;
      assert after.campaigns[c].totalSpent > after.campaigns[c].budget;
    } else {
      forall c: RowId | c < |after.campaigns| ensures after.campaigns[c].totalSpent <= after.campaigns[c].budget {
      }
    }
  }

  /** An edit written straight after its check never undercuts the spend. */
  lemma PromptWriteIsSafe(d: Desk, user: UserId, c: RowId, input: CampaignInput)
    requires WithinBudget(d.books)
    ensures WithinBudget(Act(Act(d, CheckUpdate(user, c, input)), WriteUpdate(|d.pending|)).books)
  {
    var checked := Act(d, CheckUpdate(user, c, input));
    BudgetHoldsUnlessUndercut(d, CheckUpdate(user, c, input));
    BudgetHoldsUnlessUndercut(checked, WriteUpdate(|d.pending|));
  }

  // ---------------------------------------------------------------- deleting an ad

  /** What `deleteMyAd` asks of an ad besides having no impressions. */
  predicate MayDelete(ad: Ad) { ad.status in {AD_PENDING_REVIEW, AD_REJECTED} }

  function WithoutAd(b: Books, i: RowId): Books
    requires i < |b.ads|
  {
    b.(ads := b.ads[..i] + b.ads[i + 1..])
  }

  /** Deleting an ad keeps the ledgers equal exactly if nothing was ever charged to it. */
  lemma DeletingAdKeepsLedgersExactly(b: Books, i: RowId)
    requires Sound(b) && i < |b.ads|
    ensures Sound(WithoutAd(b, i)) <==> b.ads[i].spent == 0
  {
    hide Sum;
    var after := WithoutAd(b, i);
    forall c: RowId | c < |b.campaigns|
      ensures Sum(after.ads, SpentByAd(c)) == Sum(b.ads, SpentByAd(c)) - SpentByAd(c)(b.ads[i])
    {
      assert b.ads == b.ads[..i] + [b.ads[i]] + b.ads[i + 1..];
      SumAppend(b.ads[..i], b.ads[i], SpentByAd(c));
      SumConcat(b.ads[..i] + [b.ads[i]], b.ads[i + 1..], SpentByAd(c));
      SumConcat(b.ads[..i], b.ads[i + 1..], SpentByAd(c));
    }
    assert LedgersAgree(b, b.ads[i].campaign);
    if b.ads[i].spent == 0 {
      forall c: RowId | c < |after.campaigns| ensures LedgersAgree(after, c) {
        assert LedgersAgree(b, c);
      }
    } else {
      assert !LedgersAgree(after, b.ads[i].campaign);
    }
  }
}
