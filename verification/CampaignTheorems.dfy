/** What holds of every campaign over every run of the whole system. */
module CampaignTheorems {
  import opened Optional
  import opened Sums
  import opened AdBilling
  import opened AdCampaigns
  import opened Wallet
  import opened WalletTheorems

  /** Events other than ad actions leave campaigns, ads and ad payments alone. */
  lemma OthersKeepCampaigns(s: State, e: Event)
    requires !e.Ads?
    ensures Next(s, e).desk.books.campaigns == s.desk.books.campaigns && Next(s, e).desk.books.ads == s.desk.books.ads
    ensures Next(s, e).desk.pending == s.desk.pending
  {
    if e.Resume? && e.frame < |s.frames| {
      ResumeKeepsCampaigns(s, e.frame, e.io);
    }
  }

  lemma ResumeKeepsCampaigns(s: State, r: RowId, io: Io)
    requires r < |s.frames|
    ensures ResumeStep(s, r, io).desk.books.campaigns == s.desk.books.campaigns
    ensures ResumeStep(s, r, io).desk.books.ads == s.desk.books.ads
    ensures ResumeStep(s, r, io).desk.pending == s.desk.pending
  {
    match s.frames[r]
    case RefundAtTransaction(pay, snap) => assert RefundStep(s, r, pay, snap).desk.pending == s.desk.pending;
    case VerifyAtApply(pay, snap) => assert ApplyStep(s, r, pay, snap, io.now).desk.pending == s.desk.pending;
    case _ =>
  }

  /**
   * Over every run the campaign's spend, its ad payments, its daily rows and its ads' spend are
   * one number, and that number is its unit cost times the number of its payments.
   */
  lemma {:induction false} CampaignLedgersAgree(opening: map<UserId, int>, run: seq<Event>, c: RowId)
    requires Funded(opening) && c < |Exec(Opened(opening), run).desk.books.campaigns|
    ensures var b := Exec(Opened(opening), run).desk.books;
      && b.campaigns[c].totalSpent == Sum(b.adPayments, PaidBy(c))
      && b.campaigns[c].totalSpent == Sum(b.daily, SpentOnDay(c))
      && b.campaigns[c].totalSpent == Sum(b.ads, SpentByAd(c))
      && b.campaigns[c].totalSpent == UnitCost(b.campaigns[c]) * PaymentCount(b, c)
  {
    RunInv(opening, run);
    var b := Exec(Opened(opening), run).desk.books;
    assert LedgersAgree(b, c);
    SpendIsCostTimesCount(b, c);
  }

  // ---------------------------------------------------------------- the budget that was in force

  function BudgetNow(s: State, c: RowId): int {
    if c < |s.desk.books.campaigns| then s.desk.books.campaigns[c].budget else 0
  }

  /** The largest budget campaign `c` had at any state of the run. */
  function PeakBudget(s: State, run: seq<Event>, c: RowId): int {
    var now := BudgetNow(Exec(s, run), c);
    if run == [] then now
    else
      var before := PeakBudget(s, run[..|run| - 1], c);
      if before > now then before else now
  }

  /** One event lifts the spend no higher than the budget in force before it. */
  lemma SpendStep(s: State, e: Event, c: RowId, peak: int)
    requires Sound(s.desk.books) && c < |s.desk.books.campaigns|
    requires s.desk.books.campaigns[c].totalSpent <= peak && s.desk.books.campaigns[c].budget <= peak
    ensures c < |Next(s, e).desk.books.campaigns| && Next(s, e).desk.books.campaigns[c].totalSpent <= peak
  {
    if e.Ads? {
      ActKeepsTerms(s.desk, e.action, c);
    } else {
      OthersKeepCampaigns(s, e);
    }
  }

  lemma {:induction false} SpendBelowPeak(opening: map<UserId, int>, run: seq<Event>, c: RowId)
    requires Funded(opening) && c < |Exec(Opened(opening), run).desk.books.campaigns|
    ensures Exec(Opened(opening), run).desk.books.campaigns[c].totalSpent <= PeakBudget(Opened(opening), run, c)
  {
    if run != [] {
      var n := |run| - 1;
      var before := Exec(Opened(opening), run[..n]);
      if c < |before.desk.books.campaigns| {
        SoundAt(opening, run[..n]);
        SpendBelowPeak(opening, run[..n], c);
        PeakCoversNow(Opened(opening), run[..n], c);
        SpendStep(before, run[n], c, PeakBudget(Opened(opening), run[..n], c));
      } else {
        FreshCampaign(before, run[n], c);
      }
    }
  }

  lemma {:induction false} SoundAt(opening: map<UserId, int>, run: seq<Event>)
    requires Funded(opening)
    ensures Sound(Exec(Opened(opening), run).desk.books)
  {
    RunInv(opening, run);
  }

  lemma PeakCoversNow(s: State, run: seq<Event>, c: RowId)
    ensures BudgetNow(Exec(s, run), c) <= PeakBudget(s, run, c)
  {
  }

  lemma FreshCampaign(s: State, e: Event, c: RowId)
    requires |s.desk.books.campaigns| <= c < |Next(s, e).desk.books.campaigns|
    ensures Next(s, e).desk.books.campaigns[c].totalSpent == 0 <= Next(s, e).desk.books.campaigns[c].budget
  {
    if !e.Ads? {
      OthersKeepCampaigns(s, e);
    }
  }

  /** A campaign is charged at most as many times as its largest budget covers its unit cost. */
  lemma {:induction false} ChargesBounded(opening: map<UserId, int>, run: seq<Event>, c: RowId)
    requires Funded(opening) && c < |Exec(Opened(opening), run).desk.books.campaigns|
    ensures var b := Exec(Opened(opening), run).desk.books;
      UnitCost(b.campaigns[c]) > 0 ==>
        PaymentCount(b, c) <= PeakBudget(Opened(opening), run, c) / UnitCost(b.campaigns[c])
  {
    CampaignLedgersAgree(opening, run, c);
    SpendBelowPeak(opening, run, c);
    var b := Exec(Opened(opening), run).desk.books;
    var cost := UnitCost(b.campaigns[c]);
    if cost > 0 {
      QuotientBound(PaymentCount(b, c), cost, PeakBudget(Opened(opening), run, c));
    }
  }

  lemma {:induction false} QuotientBound(count: int, cost: int, total: int)
    requires cost > 0 && cost * count <= total
    ensures count <= total / cost
  {
    var q := total / cost;
    assert cost * (count - q) == cost * count - cost * q < cost;
    AtLeastOnce(cost, count - q);
  }

  lemma AtLeastOnce(cost: int, k: int)
    requires cost > 0
    ensures k >= 1 ==> cost * k >= cost
  {
  }

  // ---------------------------------------------------------------- the budget at every state

  ghost predicate WithinBudgetThroughout(s: State, run: seq<Event>) {
    WithinBudget(Exec(s, run).desk.books) && (run != [] ==> WithinBudgetThroughout(s, run[..|run| - 1]))
  }

  /** No budget write of the run lands under what was spent between its check and the write. */
  ghost predicate NoWriteUndercuts(s: State, run: seq<Event>) {
    run != [] ==>
      var n := |run| - 1;
      NoWriteUndercuts(s, run[..n]) && !(run[n].Ads? && WritesUnderSpend(Exec(s, run[..n]).desk, run[n].action))
  }

  /** Spend stays within the current budget throughout a run exactly when no late write undercuts it. */
  lemma {:induction false} BudgetHoldsExactly(s: State, run: seq<Event>)
    requires WithinBudget(s.desk.books)
    ensures WithinBudgetThroughout(s, run) <==> NoWriteUndercuts(s, run)
  {
    if run != [] {
      var n := |run| - 1;
      BudgetHoldsExactly(s, run[..n]);
      var before := Exec(s, run[..n]);
      if WithinBudget(before.desk.books) {
        if run[n].Ads? {
          BudgetHoldsUnlessUndercut(before.desk, run[n].action);
        } else {
          OthersKeepCampaigns(before, run[n]);
        }
      }
    }
  }

  /** The check alone does not promise it: two clicks between check and write leave the campaign over budget. */
  lemma BudgetCanBeUndercut()
    ensures exists actions: seq<Action> :: !WithinBudget(ActAll(FUNDED, actions).books)
  {
    hide AdCampaigns.Act;
    var lower := CampaignInput(None, Some(10_000), None);
    var d0 := FUNDED;
    var d3 := CampaignUnderEdit(lower);
    var click := ChargeAd(0, Click, 1);
    var setup := [CreateCampaign("u", 20_000, None, CPC, 10_000), CreateAd(0), CheckUpdate("u", 0, lower)];
    OneClick(d3, click);
    var d4 := Act(d3, click);
    OneClick(d4, click);
    var d5 := Act(d4, click);
    LateWrite(d5, lower);
    ActAllAppend(d0, setup, click);
    ActAllAppend(d0, setup + [click], click);
    ActAllAppend(d0, setup + [click] + [click], WriteUpdate(0));
    assert !WithinBudget(ActAll(d0, setup + [click] + [click] + [WriteUpdate(0)]).books);
  }

  /** A desk with one CPC campaign of budget 20 000 and bid 10 000, and one ad. */
  predicate OneCampaign(d: Desk, spent: int) {
    && |d.books.campaigns| == 1 && |d.books.ads| == 1 && d.books.ads[0].campaign == 0
    && d.books.campaigns[0].advertiser == "u" && "u" in d.books.balance
    && d.books.campaigns[0].bidType == CPC && d.books.campaigns[0].bidAmount == 10_000
    && d.books.campaigns[0].dailyBudget == None
    && d.books.campaigns[0].budget == 20_000 && d.books.campaigns[0].totalSpent == spent
    && d.books.balance["u"] == 100_000 - spent
  }

  lemma OneClick(d: Desk, click: Action)
    requires click == ChargeAd(0, Click, 1)
    requires OneCampaign(d, 0) || OneCampaign(d, 10_000)
    ensures OneCampaign(Act(d, click), d.books.campaigns[0].totalSpent + 10_000)
    ensures Act(d, click).pending == d.pending
  {
    assert Obstacle(d.books, 0, 10_000, 1) == None;
  }

  lemma LateWrite(d: Desk, lower: CampaignInput)
    requires OneCampaign(d, 20_000) && d.pending == [Some(PendingWrite(0, lower))] && lower.budget == Some(10_000)
    ensures !WithinBudget(Act(d, WriteUpdate(0)).books)
  {
    var after := Act(d, WriteUpdate(0)).books;
    assert after.campaigns[0].totalSpent == 20_000 && after.campaigns[0].budget == 10_000;
  }

  const FUNDED := Desk(Books(map["u" := 100_000], [], [], [], []), [])
  const CREATED := FUNDED.(books := FUNDED.books.(campaigns := [Campaign("u", 20_000, 0, None, CPC, 10_000, DRAFT, None)]))
  const WITH_AD := CREATED.(books := CREATED.books.(ads := [Ad(0, AD_PENDING_REVIEW, 0)]))

  lemma Creates()
    ensures Act(FUNDED, CreateCampaign("u", 20_000, None, CPC, 10_000)) == CREATED
  {
  }

  lemma AddsAd()
    ensures Act(CREATED, CreateAd(0)) == WITH_AD
  {
  }

  lemma ChecksEdit(lower: CampaignInput)
    requires lower == CampaignInput(None, Some(10_000), None)
    ensures Act(WITH_AD, CheckUpdate("u", 0, lower)) == WITH_AD.(pending := [Some(PendingWrite(0, lower))])
  {
  }

  lemma CampaignUnderEdit(lower: CampaignInput) returns (d3: Desk)
    requires lower == CampaignInput(None, Some(10_000), None)
    ensures d3 == ActAll(FUNDED, [CreateCampaign("u", 20_000, None, CPC, 10_000), CreateAd(0), CheckUpdate("u", 0, lower)])
    ensures OneCampaign(d3, 0)
    ensures d3.pending == [Some(PendingWrite(0, lower))]
  {
    hide AdCampaigns.Act;
    hide ActAll;
    Creates();
    AddsAd();
    ChecksEdit(lower);
    d3 := WITH_AD.(pending := [Some(PendingWrite(0, lower))]);
    ActAllThree(FUNDED, CreateCampaign("u", 20_000, None, CPC, 10_000), CreateAd(0), CheckUpdate("u", 0, lower));
  }

  lemma ActAllThree(d: Desk, a: Action, b: Action, c: Action)
    ensures ActAll(d, [a, b, c]) == Act(Act(Act(d, a), b), c)
  {
    hide AdCampaigns.Act;
    ActAllAppend(d, [], a);
    ActAllAppend(d, [a], b);
    ActAllAppend(d, [a, b], c);
    assert [] + [a] == [a] && [a] + [b] == [a, b] && [a, b] + [c] == [a, b, c];
  }

  lemma ActAllAppend(d: Desk, actions: seq<Action>, a: Action)
    ensures ActAll(d, actions + [a]) == Act(ActAll(d, actions), a)
  {
    assert (actions + [a])[..|actions|] == actions;
  }

  function ActAll(d: Desk, actions: seq<Action>): Desk {
    if actions == [] then d else Act(ActAll(d, actions[..|actions| - 1]), actions[|actions| - 1])
  }

  lemma ClickOnPendingAd()
    ensures Act(WITH_AD, ChargeAd(0, Click, 1)).books.ads == [Ad(0, AD_PENDING_REVIEW, 10_000)]
  {
    hide AdBilling.Upsert;
    assert Obstacle(WITH_AD.books, 0, 10_000, 1) == None;
  }

  lemma SoundStart()
    ensures Sound(WITH_AD.books)
  {
  }

  /** An ad that was clicked before its review may be deleted, and then the ads' ledger no longer agrees. */
  lemma DeletedAdLosesItsSpend()
    ensures var b := Act(WITH_AD, ChargeAd(0, Click, 1)).books;
      |b.ads| == 1 && MayDelete(b.ads[0]) && Sound(b) && !Sound(WithoutAd(b, 0))
  {
    ClickOnPendingAd();
    SoundStart();
    hide AdCampaigns.Act;
    hide AdBilling.Sound;
    ActKeepsSound(WITH_AD, ChargeAd(0, Click, 1));
    DeletingAdKeepsLedgersExactly(Act(WITH_AD, ChargeAd(0, Click, 1)).books, 0);
  }
}
