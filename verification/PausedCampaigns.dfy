/** What an automatic pause leaves behind: a campaign without an approved ad, which its owner cannot activate. */
module PausedCampaigns {
  import opened Optional
  import opened AdBilling
  import opened AdCampaigns
  import opened Wallet
  import opened CampaignTheorems

  ghost predicate NoneApproved(b: Books, c: RowId) {
    forall i :: 0 <= i < |b.ads| && b.ads[i].campaign == c ==> b.ads[i].status != AD_APPROVED
  }

  /** A pending ad of the campaign passes its review, or an admin sets an ad of it to approved. */
  predicate Approves(b: Books, a: Action, c: RowId) {
    match a
    case ReviewAd(ad, approve) => approve && ad < |b.ads| && b.ads[ad].campaign == c && b.ads[ad].status == AD_PENDING_REVIEW
    case SetAdStatus(ad, status) => status == AD_APPROVED && ad < |b.ads| && b.ads[ad].campaign == c
    case _ => false
  }

  /** A billable event that one of the three limits refuses. */
  predicate Refused(b: Books, ad: RowId, event: AdEvent, day: int) {
    && HasCampaign(b, ad) && Billable(b.campaigns[b.ads[ad].campaign], event)
    && Obstacle(b, b.ads[ad].campaign, UnitCost(b.campaigns[b.ads[ad].campaign]), day).Some?
  }

  /** A refused charge pauses the campaign together with every approved ad of it. */
  lemma RefusedChargeLeavesNone(b: Books, ad: RowId, event: AdEvent, day: int)
    requires Refused(b, ad, event, day)
    ensures var c := b.ads[ad].campaign; var after := Charge(b, ad, event, day).0;
      NoneApproved(after, c) && after.campaigns[c].status == PAUSED
  {
  }

  /** The owner may activate a campaign, and change nothing else, exactly if the wallet covers one event and some ad is approved. */
  lemma ActivationAllowedExactly(b: Books, user: UserId, c: RowId)
    requires c < |b.campaigns| && b.campaigns[c].advertiser == user && user in b.balance
    ensures UpdateAllowed(b, user, c, CampaignInput(Some(ACTIVE), None, None)) <==>
      0 < UnitCost(b.campaigns[c]) <= b.balance[user] && !NoneApproved(b, c)
  {
    if !NoneApproved(b, c) {
      var i :| 0 <= i < |b.ads| && b.ads[i].campaign == c && b.ads[i].status == AD_APPROVED;
      assert b.ads[i].campaign == c && b.ads[i].status == AD_APPROVED;
    }
  }

  /** Of all actions only a new approval gives the campaign an approved ad again, and it always does. */
  lemma OnlyApprovalFreesExactly(d: Desk, a: Action, c: RowId)
    requires NoneApproved(d.books, c)
    ensures NoneApproved(Act(d, a).books, c) <==> !Approves(d.books, a, c)
  {
    var after := Act(d, a).books;
    if Approves(d.books, a, c) {
      assert after.ads[a.ad].campaign == c && after.ads[a.ad].status == AD_APPROVED;
    }
  }

  ghost predicate NoneApprovedThroughout(s: State, run: seq<Event>, c: RowId) {
    NoneApproved(Exec(s, run).desk.books, c) && (run != [] ==> NoneApprovedThroughout(s, run[..|run| - 1], c))
  }

  ghost predicate NoApproval(s: State, run: seq<Event>, c: RowId) {
    run != [] ==>
      var n := |run| - 1;
      NoApproval(s, run[..n], c) && !(run[n].Ads? && Approves(Exec(s, run[..n]).desk.books, run[n].action, c))
  }

  /** Along every run of the whole system the campaign stays without an approved ad exactly until one is newly approved. */
  lemma {:induction false} StuckUntilApprovalExactly(s: State, run: seq<Event>, c: RowId)
    requires NoneApproved(s.desk.books, c)
    ensures NoneApprovedThroughout(s, run, c) <==> NoApproval(s, run, c)
  {
    if run != [] {
      hide NoneApproved;
      hide Approves;
      hide Wallet.Next;
      var n := |run| - 1;
      var before := Exec(s, run[..n]);
      StuckUntilApprovalExactly(s, run[..n], c);
      if NoneApproved(before.desk.books, c) {
        NextKeepsNoneApproved(before, run[n], c);
      }
    }
  }

  lemma NextKeepsNoneApproved(s: State, e: Event, c: RowId)
    requires NoneApproved(s.desk.books, c)
    ensures NoneApproved(Next(s, e).desk.books, c) <==> !(e.Ads? && Approves(s.desk.books, e.action, c))
  {
    if e.Ads? {
      hide AdCampaigns.Act;
      OnlyApprovalFreesExactly(s.desk, e.action, c);
    } else {
      OthersKeepCampaigns(s, e);
      hide Wallet.Next;
    }
  }

  /**
   * After a charge that a limit refused, and whatever follows it short of a new approval, topping up
   * or raising the budget included, every request to activate the campaign is refused.
   */
  lemma {:induction false} ActivationWaitsForApproval(
      s: State, ad: RowId, event: AdEvent, day: int, run: seq<Event>, user: UserId, input: CampaignInput)
    requires Refused(s.desk.books, ad, event, day)
    requires NoApproval(Next(s, Ads(ChargeAd(ad, event, day))), run, s.desk.books.ads[ad].campaign)
    requires input.status == Some(ACTIVE)
    ensures var c := s.desk.books.ads[ad].campaign;
      var t := Exec(s, [Ads(ChargeAd(ad, event, day))] + run);
      Next(t, Ads(CheckUpdate(user, c, input))) == t
  {
    var c, refused := s.desk.books.ads[ad].campaign, Ads(ChargeAd(ad, event, day));
    var paused := Next(s, refused);
    RefusedChargeLeavesNone(s.desk.books, ad, event, day);
    assert NoneApproved(paused.desk.books, c);
    StuckUntilApprovalExactly(paused, run, c);
    ExecConcat(s, [refused], run);
    assert [refused][..0] == [];
    assert Exec(s, [refused]) == paused;
    CheckRefused(Exec(paused, run), user, c, input);
  }

  lemma CheckRefused(t: State, user: UserId, c: RowId, input: CampaignInput)
    requires NoneApproved(t.desk.books, c) && input.status == Some(ACTIVE)
    ensures Next(t, Ads(CheckUpdate(user, c, input))) == t
  {
    assert !UpdateAllowed(t.desk.books, user, c, input);
  }
}
