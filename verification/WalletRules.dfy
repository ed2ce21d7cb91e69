/** What the simple wallet requests do: creating a payment, replaying a callback, and the admin's actions. */
module WalletRules {
  import opened Optional
  import opened AdBilling
  import opened Wallet
  import opened PaymentsService

  /** A boost needs a plan and a post of one's own, a top-up at least 10 000; a business account is always on offer. */
  ghost predicate OnOffer(user: UserId, input: InitiateInput) {
    && (input.purpose == Boost ==> input.plan.Some? && exists post :: input.post == Some(post) && post.owner == user)
    && (input.purpose == WalletTopup ==> 10_000 <= input.amount)
  }

  /** A payment is created pending, at the plan's price, the asked amount, or 300 000, and moves no money. */
  lemma InitiateExactly(s: State, user: UserId, input: InitiateInput, authority: string)
    ensures var t := Next(s, Initiate(user, input, authority));
      if user !in s.Balances() || !OnOffer(user, input) then t == s
      else
        && t == s.(payments := t.payments) && |t.payments| == |s.payments| + 1 && s.payments <= t.payments
        && var p := t.payments[|s.payments|];
           && p.user == user && p.purpose == input.purpose && p.authority == authority
           && p.status == Pending && p.refId == None && p.plan == input.plan
           && p.post == (match input.post case None => None case Some(post) => Some(post.id))
           && p.amount == (match input.purpose
                case Boost => input.plan.value.price case WalletTopup => input.amount case BusinessAccount => 300_000)
  {
  }

  /** A callback on a payment that is no longer pending is answered from its status and changes nothing. */
  lemma ReplayChangesNothing(s: State, authority: string, ok: bool, row: RowId)
    requires row < |s.payments| && s.payments[row].authority == authority && s.payments[row].status != Pending
    ensures Exec(s, [StartVerify(authority, ok, row)]) ==
      s.(frames := s.frames + [Done(AlreadyProcessed(s.payments[row].status == Success))])
  {
    VerifyArrives(s, authority, ok, row);
  }

  /** An admin's credit or debit of at least one moves that much, unless the debit is more than the balance. */
  lemma AdjustExactly(s: State, user: UserId, n: int)
    ensures var t := Next(s, AdminCredit(user, n));
      if n < 1 || user !in s.Balances() then t == s
      else t.Balances() == s.Balances()[user := s.Balances()[user] + n] && t.audit == s.audit + [WalletOp(user, n)]
           && t == s.(desk := t.desk, audit := t.audit)
    ensures var t := Next(s, AdminDebit(user, n));
      if n < 1 || user !in s.Balances() || n > s.Balances()[user] then t == s
      else t.Balances() == s.Balances()[user := s.Balances()[user] - n] && t.audit == s.audit + [WalletOp(user, -n)]
           && t == s.(desk := t.desk, audit := t.audit)
  {
  }

  /** A payout is open while it is pending or approved. */
  lemma OpenPayoutExactly(s: State, user: UserId)
    ensures HasOpenPayout(s, user) <==>
      exists p: Payout :: Some(p) in s.payouts && p.user == user && p.status in {PayoutPending, PayoutApproved}
  {
    if HasOpenPayout(s, user) {
      var i :| 0 <= i < |s.payouts| && IsOpen(s.payouts[i]) && s.payouts[i].value.user == user;
      assert Some(s.payouts[i].value) in s.payouts;
    }
    if p: Payout :| Some(p) in s.payouts && p.user == user && p.status in {PayoutPending, PayoutApproved} {
      var i :| 0 <= i < |s.payouts| && s.payouts[i] == Some(p);
      assert IsOpen(s.payouts[i]);
    }
  }

  /** A payout of nothing is refused at once, and one beside an open payout when it has counted; neither changes anything. */
  lemma {:induction false} PayoutIsTurnedAway(s: State, user: UserId, amount: int, iban: string, io: Io)
    ensures amount <= 0 ==> Exec(s, [StartPayout(user, amount, iban)]) == s.(frames := s.frames + [Done(BadAmount)])
    ensures amount > 0 && HasOpenPayout(s, user) ==>
      Exec(s, [StartPayout(user, amount, iban)] + [Resume(|s.frames|, io)]) == s.(frames := s.frames + [Done(PayoutUnderReview)])
  {
    PayoutArrives(s, user, amount, iban);
    if amount > 0 && HasOpenPayout(s, user) {
      var me, s1 := |s.frames|, Suspend(s, PayoutAtCount(user, amount, iban));
      assert HasOpenPayout(s1, user);
      ExecOne(s, [StartPayout(user, amount, iban)], Resume(me, io));
      PayoutCountStep(s1, me, user, amount, iban, io);
      hide Wallet.Next;
      assert s1.frames[me := Done(PayoutUnderReview)] == s.frames + [Done(PayoutUnderReview)];
    }
  }

  /** Only the status of the named payout changes. */
  ghost predicate OnlyStatus(s: State, t: State, row: RowId, status: PayoutStatus)
    requires row < |s.payouts| && s.payouts[row].Some?
  {
    var p := s.payouts[row].value;
    t == s.(payouts := s.payouts[row := Some(Payout(p.user, p.amount, p.iban, status))])
  }

  /** Rejecting and marking paid look at no status; a missing row is left missing. */
  lemma DecidePayoutExactly(s: State, row: RowId)
    ensures if row < |s.payouts| && s.payouts[row].Some?
      then OnlyStatus(s, Next(s, RejectPayout(row)), row, PayoutRejected) && OnlyStatus(s, Next(s, MarkPaid(row)), row, PayoutPaid)
      else Next(s, RejectPayout(row)) == s && Next(s, MarkPaid(row)) == s
  {
  }

  lemma ApprovalArrives(s: State, row: RowId)
    ensures Exec(s, [StartApprove(row)]) == Suspend(s, ApproveEntry(s, row))
  {
    assert [StartApprove(row)][..0] == [];
  }

  lemma ApprovalResumes(s: State, me: RowId, row: RowId, io: Io)
    requires me < |s.frames| && s.frames[me] == ApproveAtWrite(row) && row < |s.payouts| && s.payouts[row].Some?
    ensures Next(s, Resume(me, io)) == WithPayoutStatus(s, row, PayoutApproved).At(me, Done(ApproveDone))
  {
  }

  /** An approval whose row was deleted since it was read changes nothing. */
  lemma ApprovalOfGoneRow(s: State, me: RowId, row: RowId, io: Io)
    requires me < |s.frames| && s.frames[me] == ApproveAtWrite(row) && (row < |s.payouts| ==> s.payouts[row].None?)
    ensures Next(s, Resume(me, io)) == s.(frames := s.frames[me := Done(NotFound)])
  {
  }

  /** An undisturbed approval approves exactly a pending payout, and says so. */
  lemma {:induction false} UndisturbedApproval(s: State, row: RowId, io: Io)
    ensures var t := Exec(s, [StartApprove(row)] + [Resume(|s.frames|, io)]);
      if row < |s.payouts| && s.payouts[row].Some? && s.payouts[row].value.status == PayoutPending
      then OnlyStatus(s.(frames := s.frames + [Done(ApproveDone)]), t, row, PayoutApproved)
      else t == s.(frames := s.frames + [Done(if row < |s.payouts| && s.payouts[row].Some? then NotPending else NotFound)])
  {
    hide Wallet.Next;
    var me := |s.frames|;
    var s1 := Suspend(s, ApproveEntry(s, row));
    ApprovalArrives(s, row);
    ExecOne(s, [StartApprove(row)], Resume(me, io));
    if s1.frames[me].Done? {
      DoneStep(s1, me, io);
    } else {
      ApprovalResumes(s1, me, row, io);
      assert s1.frames[me := Done(ApproveDone)] == s.frames + [Done(ApproveDone)];
    }
  }
}
