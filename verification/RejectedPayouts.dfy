/** Where the money of a rejected payout goes: it left the wallet when the payout was made, and stays out. */
module RejectedPayouts {
  import opened Optional
  import opened Sums
  import opened AdBilling
  import opened Wallet
  import opened WalletSafety
  import opened WalletTheorems

  function OfRejected(u: UserId): Option<Payout> -> int {
    (p: Option<Payout>) => if p.Some? && p.value.user == u && p.value.status == PayoutRejected then p.value.amount else 0
  }

  function OfStanding(u: UserId): Option<Payout> -> int {
    (p: Option<Payout>) => if p.Some? && p.value.user == u && p.value.status != PayoutRejected then p.value.amount else 0
  }

  /** The balance that would be explained if rejecting a payout gave its money back. */
  function IfRejectionRefunded(s: State, opening: map<UserId, int>, u: UserId): int {
    (if u in opening then opening[u] else 0) + Sum(s.payments, ToppedUp(u)) - Sum(s.frames, Uncredited(u))
    + Sum(s.audit, Adjusted(u)) - Sum(s.payouts, OfStanding(u)) - AdSpend(s.desk.books, u)
  }

  predicate HasRejectedPayout(s: State, u: UserId) {
    exists i :: 0 <= i < |s.payouts| && s.payouts[i].Some? && s.payouts[i].value.user == u && s.payouts[i].value.status == PayoutRejected
  }

  // ---------------------------------------------------------------- every payout row is positive

  ghost predicate PositivePayouts(payouts: seq<Option<Payout>>) {
    forall i :: 0 <= i < |payouts| && payouts[i].Some? ==> payouts[i].value.amount > 0
  }

  lemma StatusKeepsPositive(s: State, row: RowId, status: PayoutStatus)
    requires PositivePayouts(s.payouts)
    ensures PositivePayouts(WithPayoutStatus(s, row, status).payouts)
  {
  }

  lemma ResumeKeepsPositive(s: State, r: RowId, io: Io)
    requires r < |s.frames| && FrameOk(s, s.frames[r]) && PositivePayouts(s.payouts)
    ensures PositivePayouts(ResumeStep(s, r, io).payouts)
  {
    match s.frames[r]
    case PayoutAtReserve(user, amount, iban) =>
    case ApproveAtWrite(row) => StatusKeepsPositive(s, row, PayoutApproved);
    case PayoutAtRestore(_, _, _) =>
    case _ => OthersKeepPayouts(s, r, io);
  }

  lemma NextKeepsPositive(s: State, e: Event)
    requires Rows(s) && PositivePayouts(s.payouts)
    ensures PositivePayouts(Next(s, e).payouts)
  {
    if e.Resume? && e.frame < |s.frames| {
      assert FrameOk(s, s.frames[e.frame]);
      hide Wallet.ResumeStep;
      ResumeKeepsPositive(s, e.frame, e.io);
    } else if e.RejectPayout? {
      StatusKeepsPositive(s, e.row, PayoutRejected);
    } else if e.MarkPaid? {
      StatusKeepsPositive(s, e.row, PayoutPaid);
    }
  }

  lemma {:induction false} PayoutsArePositive(opening: map<UserId, int>, run: seq<Event>)
    requires Funded(opening)
    ensures PositivePayouts(Exec(Opened(opening), run).payouts)
  {
    if run != [] {
      hide Wallet.Next;
      var most := run[..|run| - 1];
      PayoutsArePositive(opening, most);
      RunInv(opening, most);
      NextKeepsPositive(Exec(Opened(opening), most), run[|run| - 1]);
    }
  }

  // ---------------------------------------------------------------- the exact condition

  lemma RejectedSumIsZeroExactly(s: State, u: UserId)
    requires PositivePayouts(s.payouts)
    ensures Sum(s.payouts, OfRejected(u)) == 0 <==> !HasRejectedPayout(s, u)
  {
    if HasRejectedPayout(s, u) {
      SumNonNegative(s.payouts, OfRejected(u));
    } else {
      SumZero(s.payouts, OfRejected(u));
    }
  }

  /**
   * Over every run a balance is what it would be had rejections given the money back exactly if no
   * payout of the user is rejected.
   */
  lemma {:induction false} RejectionKeepsTheMoneyExactly(opening: map<UserId, int>, run: seq<Event>, u: UserId)
    requires Funded(opening) && u in opening
    ensures var s := Exec(Opened(opening), run);
      && u in s.Balances()
      && (s.Balances()[u] == IfRejectionRefunded(s, opening, u) <==> !HasRejectedPayout(s, u))
      && s.Balances()[u] == IfRejectionRefunded(s, opening, u) - Sum(s.payouts, OfRejected(u))
  {
    var s := Exec(Opened(opening), run);
    BalanceIsExplained(opening, run, u);
    PayoutsArePositive(opening, run);
    SumSplits(s.payouts, Withdrawn(u), OfStanding(u), OfRejected(u));
    RejectedSumIsZeroExactly(s, u);
  }

  // ---------------------------------------------------------------- a payout that is made and rejected

  const ASKING := Payout("u", 60_000, "IR", PayoutPending)

  lemma PayoutIsMade(s: State, io: Io)
    requires s == Opened(map["u" := 100_000])
    ensures var e := Resume(0, io); var t := Next(Next(Next(Next(s, StartPayout("u", 60_000, "IR")), e), e), e);
      && t.frames == [Done(PayoutMade(0))] && t.payouts == [Some(ASKING)] && t.Balances() == map["u" := 40_000]
  {
    var arrived := Suspend(s, PayoutAtCount("u", 60_000, "IR"));
    assert Next(s, StartPayout("u", 60_000, "IR")) == arrived && !HasOpenPayout(arrived, "u");
    hide Wallet.Next;
    CountGoesOn(arrived, 0, "u", 60_000, "IR", io);
    var counted := arrived.At(0, PayoutAtReserve("u", 60_000, "IR"));
    ReserveGoesOn(counted, 0, "u", 60_000, "IR", io);
    var reserved := ReserveStep(counted, 0, "u", 60_000, "IR");
    assert reserved.Balances() == map["u" := 40_000] && reserved.frames == [PayoutAtCheck("u", 60_000, 0)];
    CheckGoesOn(reserved, 0, "u", 60_000, 0, io);
  }

  lemma CheckGoesOn(s: State, r: RowId, user: UserId, amount: int, row: RowId, io: Io)
    requires r < |s.frames| && s.frames[r] == PayoutAtCheck(user, amount, row)
    ensures Next(s, Resume(r, io)) == CheckStep(s, r, user, amount, row)
  {
  }

  /** A withdrawal of 60 000 out of 100 000 is granted and then rejected: the wallet stays at 40 000. */
  lemma RejectedMoneyStaysOut()
    ensures var e := Resume(0, Io(NotVerified, 0));
      var t := Exec(Opened(map["u" := 100_000]), [StartPayout("u", 60_000, "IR"), e, e] + [e, RejectPayout(0)]);
      && t.payouts == [Some(ASKING.(status := PayoutRejected))]
      && t.frames == [Done(PayoutMade(0))]
      && t.Balances() == map["u" := 40_000]
  {
    var s := Opened(map["u" := 100_000]);
    var io := Io(NotVerified, 0);
    var e := Resume(0, io);
    var asked := [StartPayout("u", 60_000, "IR"), e, e];
    PayoutIsMade(s, io);
    var made := Next(Next(Next(Next(s, asked[0]), e), e), e);
    assert Next(made, RejectPayout(0)) == WithPayoutStatus(made, 0, PayoutRejected);
    hide Wallet.Next;
    ThreeSteps(s, asked);
    var before := Exec(s, asked);
    ExecConcat(s, asked, [e, RejectPayout(0)]);
    assert [e, RejectPayout(0)][..1] == [e] && [e][..0] == [];
    assert Exec(before, [e]) == Next(before, e);
    assert Exec(before, [e, RejectPayout(0)]) == Next(Next(before, e), RejectPayout(0));
  }
}
