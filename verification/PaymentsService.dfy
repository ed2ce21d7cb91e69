/**
 * The payment service as code: each handler updates the tables in place, one database call at a
 * time, and lets any other requests run while it waits. Every handler is shown to be a run of
 * the wallet protocol, so the wallet theorems apply to it.
 */
module PaymentsService {
  import opened Optional
  import opened Sums
  import opened AdBilling
  import opened AdCampaigns
  import opened Wallet
  import opened WalletSafety
  import opened WalletTheorems

  /** Requests that run meanwhile may do anything but resume request `me`. */
  predicate LeavesAlone(others: seq<Event>, me: RowId) {
    forall k :: 0 <= k < |others| ==> !(others[k].Resume? && others[k].frame == me)
  }

  predicate Schedule(gaps: seq<seq<Event>>, n: nat, me: RowId) {
    |gaps| == n && forall k :: 0 <= k < |gaps| ==> LeavesAlone(gaps[k], me)
  }

  /** Nobody but its own resumption moves a suspended request. */
  lemma {:induction false} OthersKeepFrame(s: State, e: Event, me: RowId)
    requires me < |s.frames| && !(e.Resume? && e.frame == me)
    ensures me < |Next(s, e).frames| && Next(s, e).frames[me] == s.frames[me]
  {
    if e.Resume? && e.frame < |s.frames| {
      ResumeLowersRank(s, e.frame, e.io);
    }
  }

  lemma ExecOne(s: State, run: seq<Event>, e: Event)
    ensures Exec(s, run + [e]) == Next(Exec(s, run), e)
  {
    assert (run + [e])[..|run|] == run;
  }

  lemma {:induction false} ExecGap(s: State, run: seq<Event>, gap: seq<Event>, e: Event)
    ensures Exec(s, run + gap + [e]) == Next(Exec(Exec(s, run), gap), e)
  {
    ExecConcat(s, run, gap);
    ExecOne(s, run + gap, e);
  }

  lemma PayoutArrives(s: State, user: UserId, amount: int, iban: string)
    ensures Exec(s, [StartPayout(user, amount, iban)]) == Suspend(s, PayoutEntry(user, amount, iban))
  {
    assert Exec(s, [StartPayout(user, amount, iban)][..0]) == s;
  }

  lemma VerifyArrives(s: State, authority: string, ok: bool, found: RowId)
    requires found < |s.payments| && s.payments[found].authority == authority
    ensures Exec(s, [StartVerify(authority, ok, found)]) == Suspend(s, VerifyEntry(s, ok, found))
  {
    assert Exec(s, [StartVerify(authority, ok, found)][..0]) == s;
  }

  lemma RefundArrives(s: State, pay: RowId)
    ensures Exec(s, [StartRefund(pay)]) == Suspend(s, RefundEntry(s, pay))
  {
    assert Exec(s, [StartRefund(pay)][..0]) == s;
  }

  lemma RefundIs(s: State, me: RowId, pay: RowId, snap: Payment, io: Io)
    requires me < |s.frames| && s.frames[me] == RefundAtTransaction(pay, snap)
    ensures Next(s, Resume(me, io)) == RefundStep(s, me, pay, snap)
  {
  }

  /** A row in the log of effects is the only one of its payment. */
  lemma AppliedExactlyOnce(s: State, opening: map<UserId, int>, p: RowId)
    requires Inv(s, opening) && |s.applied| > 0 && s.applied[|s.applied| - 1] == p
    ensures p < |s.payments| && TimesApplied(s, p) == 1 && s.payments[p].status in {Success, Refunded}
  {
    assert Once(s, p);
    SumNonNegative(s.frames, Applying(p));
    SumNonNegative(s.applied, AppliedTo(p));
    assert AppliedTo(p)(s.applied[|s.applied| - 1]) == 1;
  }

  lemma UsersAreFixed(s: State, opening: map<UserId, int>, run: seq<Event>, gap: seq<Event>)
    requires Inv(s, opening)
    ensures Exec(Exec(s, run), gap).Balances().Keys == opening.Keys
  {
    ExecKeepsInv(s, opening, run);
    ExecKeepsInv(Exec(s, run), opening, gap);
  }

  /** A request that holds reserved money still holds it after others ran, and its row is still there. */
  lemma {:induction false} ReserveSurvives(s: State, opening: map<UserId, int>, run: seq<Event>, gap: seq<Event>, me: RowId)
    requires Inv(s, opening)
    requires var now := Exec(Exec(s, run), gap); me < |now.frames| && HoldsReserve(now.frames[me])
    ensures var now := Exec(Exec(s, run), gap); var f := now.frames[me]; ReserveOk(now, f.user, f.amount, f.row)
  {
    ExecKeepsInv(s, opening, run);
    ExecKeepsInv(Exec(s, run), opening, gap);
    var now := Exec(Exec(s, run), gap);
    assert FrameOk(now, now.frames[me]);
  }

  /** The states of a payout request, one resumption at a time. */
  lemma PayoutCountStep(s: State, me: RowId, user: UserId, amount: int, iban: string, io: Io)
    requires me < |s.frames| && s.frames[me] == PayoutAtCount(user, amount, iban)
    ensures Next(s, Resume(me, io))
         == s.At(me, if HasOpenPayout(s, user) then Done(PayoutUnderReview) else PayoutAtReserve(user, amount, iban))
  {
  }

  lemma PayoutReserveStep(s: State, me: RowId, user: UserId, amount: int, iban: string, io: Io)
    requires me < |s.frames| && s.frames[me] == PayoutAtReserve(user, amount, iban)
    ensures Next(s, Resume(me, io)) == ReserveStep(s, me, user, amount, iban)
  {
  }

  lemma PayoutCheckStep(s: State, me: RowId, user: UserId, amount: int, row: RowId, io: Io)
    requires me < |s.frames| && s.frames[me] == PayoutAtCheck(user, amount, row)
    ensures Next(s, Resume(me, io)) == CheckStep(s, me, user, amount, row)
  {
  }

  lemma PayoutRestoreStep(s: State, me: RowId, user: UserId, amount: int, row: RowId, io: Io)
    requires me < |s.frames| && s.frames[me] == PayoutAtRestore(user, amount, row)
    ensures Next(s, Resume(me, io)) == RestoreStep(s, me, user, amount, row)
  {
  }

  lemma DoneStep(s: State, me: RowId, io: Io)
    requires me < |s.frames| && s.frames[me].Done?
    ensures Next(s, Resume(me, io)) == s
  {
  }

  /** A payout request that nothing interrupts, on a balance that covers it: the money moves and the row stays. */
  lemma {:induction false} UndisturbedPayoutGranted(s: State, user: UserId, amount: int, iban: string, io: Io)
    requires user in s.Balances() && amount > 0 && !HasOpenPayout(s, user) && s.Balances()[user] >= amount
    ensures var t := Exec(s, [StartPayout(user, amount, iban)] + Finish(|s.frames|, io));
      && t.frames == s.frames + [Done(PayoutMade(|s.payouts|))]
      && t.Balances() == s.Balances()[user := s.Balances()[user] - amount]
      && t.payouts == s.payouts + [Some(Payout(user, amount, iban, PayoutPending))]
  {
    hide Wallet.Next;
    hide Wallet.ResumeStep;
    var me := |s.frames|;
    var s3, s4, run := PayoutThreeSteps(s, user, amount, iban, io);
    assert s4.frames[me] == Done(PayoutMade(|s.payouts|));
    DoneStep(s4, me, io);
    ExecOne(s, run, Resume(me, io));
    assert run + [Resume(me, io)] == [StartPayout(user, amount, iban)] + Finish(me, io);
  }

  /** The same on a balance that does not: every balance and every row is as it was before. */
  lemma {:induction false} UndisturbedPayoutRefused(s: State, user: UserId, amount: int, iban: string, io: Io)
    requires user in s.Balances() && amount > 0 && !HasOpenPayout(s, user) && s.Balances()[user] < amount
    ensures var t := Exec(s, [StartPayout(user, amount, iban)] + Finish(|s.frames|, io));
      && t.frames == s.frames + [Done(InsufficientFunds)]
      && t.Balances() == s.Balances()
      && t.payouts == s.payouts + [None]
  {
    hide Wallet.Next;
    hide Wallet.ResumeStep;
    var me := |s.frames|;
    var s3, s4, run := PayoutThreeSteps(s, user, amount, iban, io);
    RestoreUndoesReserve(Suspend(s, PayoutAtReserve(user, amount, iban)), me, user, amount, iban);
    PayoutRestoreStep(s4, me, user, amount, |s.payouts|, io);
    ExecOne(s, run, Resume(me, io));
    assert run + [Resume(me, io)] == [StartPayout(user, amount, iban)] + Finish(me, io);
    assert Suspend(s, PayoutAtReserve(user, amount, iban)).frames[me := Done(InsufficientFunds)] == s.frames + [Done(InsufficientFunds)];
  }

  /** The compensating transaction undoes the reserving one. */
  lemma RestoreUndoesReserve(s: State, me: RowId, user: UserId, amount: int, iban: string)
    requires me < |s.frames| && user in s.Balances() && s.Balances()[user] < amount
    ensures var taken := CheckStep(ReserveStep(s, me, user, amount, iban), me, user, amount, |s.payouts|);
      && me < |taken.frames| && taken.frames[me] == PayoutAtRestore(user, amount, |s.payouts|)
      && var t := RestoreStep(taken, me, user, amount, |s.payouts|);
         && t.frames == s.frames[me := Done(InsufficientFunds)]
         && t.Balances() == s.Balances()
         && t.payouts == s.payouts + [None]
  {
    var s3 := ReserveStep(s, me, user, amount, iban);
    assert s3.Balances()[user] == s.Balances()[user] - amount;
    assert s3.Balances()[user := s.Balances()[user]] == s.Balances();
  }

  lemma PayoutThreeSteps(s: State, user: UserId, amount: int, iban: string, io: Io)
    returns (s3: State, s4: State, run: seq<Event>)
    requires user in s.Balances() && amount > 0 && !HasOpenPayout(s, user)
    ensures var me := |s.frames|; var e := Resume(me, io);
      && run == [StartPayout(user, amount, iban), e, e, e]
      && s3 == ReserveStep(Suspend(s, PayoutAtReserve(user, amount, iban)), me, user, amount, iban)
      && s4 == CheckStep(s3, me, user, amount, |s.payouts|)
      && Exec(s, run) == s4
  {
    hide Wallet.Next;
    hide Wallet.ResumeStep;
    var me := |s.frames|;
    var e := Resume(me, io);
    var s1 := Suspend(s, PayoutAtCount(user, amount, iban));
    var s2 := Suspend(s, PayoutAtReserve(user, amount, iban));
    s3 := ReserveStep(s2, me, user, amount, iban);
    s4 := CheckStep(s3, me, user, amount, |s.payouts|);
    run := [StartPayout(user, amount, iban)];
    PayoutArrives(s, user, amount, iban);
    PayoutCountStep(s1, me, user, amount, iban, io);
    assert s1.At(me, PayoutAtReserve(user, amount, iban)) == s2;
    PayoutReserveStep(s2, me, user, amount, iban, io);
    PayoutCheckStep(s3, me, user, amount, |s.payouts|, io);
    ExecOne(s, run, e);
    ExecOne(s, run + [e], e);
    ExecOne(s, run + [e] + [e], e);
    run := run + [e] + [e] + [e];
  }

  // ---------------------------------------------------------------- what a callback does when nothing interrupts it

  /**
   * The effect of a paid payment: a boost promotes its post for the plan's hours, a business account
   * runs for thirty days, a top-up adds its amount to its user's wallet; nothing else moves.
   */
  ghost predicate Effected(before: State, after: State, p: Payment, now: int) {
    && after.promoted == (if p.purpose == Boost && p.post.Some? && p.plan.Some?
                          then before.promoted[p.post.value := now + 3_600_000 * p.plan.value.durationHours] else before.promoted)
    && after.business == (if p.purpose == BusinessAccount then before.business[p.user := now + 2_592_000_000] else before.business)
    && after.Balances() == (if p.purpose == WalletTopup && p.user in before.Balances()
                            then before.Balances()[p.user := before.Balances()[p.user] + p.amount] else before.Balances())
  }

  ghost predicate NoEffect(before: State, after: State) {
    after.promoted == before.promoted && after.business == before.business && after.Balances() == before.Balances()
    && after.applied == before.applied
  }

  lemma EffectIs(s: State, me: RowId, pay: RowId, snap: Payment, now: int)
    requires me < |s.frames|
    ensures var t := ApplyStep(s, me, pay, snap, now);
      Effected(s, t, snap, now) && t.frames == s.frames[me := Done(PaymentDone)] && t.payments == s.payments && t.applied == s.applied + [pay]
  {
  }

  lemma GatewayStep(s: State, me: RowId, pay: RowId, snap: Payment, io: Io)
    requires me < |s.frames| && s.frames[me] == VerifyAtGateway(pay, snap)
    ensures Next(s, Resume(me, io)) ==
      s.At(me, if io.gateway.Verified? then VerifyAtClaim(pay, snap, io.gateway.refId) else VerifyAtFail(pay, Refused))
  {
  }

  lemma FailedStep(s: State, me: RowId, pay: RowId, reply: Reply, io: Io)
    requires me < |s.frames| && s.frames[me] == VerifyAtFail(pay, reply) && pay < |s.payments| && s.payments[pay].status == Pending
    ensures var t := Next(s, Resume(me, io));
      && t.frames == s.frames[me := Done(reply)] && NoEffect(s, t)
      && t.payments == s.payments[pay := s.payments[pay].(status := Failed)]
  {
  }

  lemma ClaimedStep(s: State, me: RowId, pay: RowId, snap: Payment, ref: Option<string>, io: Io)
    requires me < |s.frames| && s.frames[me] == VerifyAtClaim(pay, snap, ref) && pay < |s.payments| && s.payments[pay].status == Pending
    ensures var t := Next(s, Resume(me, io));
      && t.frames == s.frames[me := VerifyAtApply(pay, snap)] && NoEffect(s, t)
      && t.payments == s.payments[pay := s.payments[pay].(status := Success, refId := ref)]
  {
  }

  lemma AppliedStep(s: State, me: RowId, pay: RowId, snap: Payment, io: Io)
    requires me < |s.frames| && s.frames[me] == VerifyAtApply(pay, snap)
    ensures Next(s, Resume(me, io)) == ApplyStep(s, me, pay, snap, io.now)
  {
  }

  /** The entry of a callback on a pending payment: the gateway's status decides whether to go on. */
  lemma PendingEntry(s: State, authority: string, ok: bool, row: RowId)
    requires row < |s.payments| && s.payments[row].authority == authority && s.payments[row].status == Pending
    ensures Exec(s, [StartVerify(authority, ok, row)]) ==
      Suspend(s, if ok then VerifyAtGateway(row, s.payments[row]) else VerifyAtFail(row, Cancelled))
  {
    VerifyArrives(s, authority, ok, row);
  }

  /** The user paid and the gateway confirms it: the payment succeeds and its effect is exactly the one it was for. */
  lemma {:induction false} UndisturbedCallbackPays(s: State, authority: string, row: RowId, ref: Option<string>, now: int)
    requires row < |s.payments| && s.payments[row].authority == authority && s.payments[row].status == Pending
    ensures var e := Resume(|s.frames|, Io(Verified(ref), now)); var t := Exec(s, [StartVerify(authority, true, row), e, e, e]);
      && t.frames == s.frames + [Done(PaymentDone)] && t.applied == s.applied + [row]
      && t.payments == s.payments[row := s.payments[row].(status := Success, refId := ref)]
      && Effected(s, t, s.payments[row], now)
  {
    hide Wallet.Next;
    hide Wallet.ApplyStep;
    var me, p, io := |s.frames|, s.payments[row], Io(Verified(ref), now);
    var e, run := Resume(me, io), [StartVerify(authority, true, row)];
    var s1 := Suspend(s, VerifyAtGateway(row, p));
    var s2 := s1.At(me, VerifyAtClaim(row, p, ref));
    var s3 := Next(s2, e);
    PendingEntry(s, authority, true, row);
    GatewayStep(s1, me, row, p, io);
    ClaimedStep(s2, me, row, p, ref, io);
    AppliedStep(s3, me, row, p, io);
    EffectIs(s3, me, row, p, now);
    ExecOne(s, run, e);
    ExecOne(s, run + [e], e);
    ExecOne(s, run + [e] + [e], e);
    assert run + [e] + [e] + [e] == [StartVerify(authority, true, row), e, e, e];
  }

  /** The user went back, or the gateway does not confirm: the payment fails and nothing else moves. */
  lemma {:induction false} UndisturbedCallbackFails(s: State, authority: string, ok: bool, row: RowId, io: Io)
    requires row < |s.payments| && s.payments[row].authority == authority && s.payments[row].status == Pending
    requires ok ==> io.gateway.NotVerified?
    ensures var e := Resume(|s.frames|, io); var t := Exec(s, [StartVerify(authority, ok, row)] + if ok then [e, e] else [e]);
      && t.frames == s.frames + [Done(if ok then Refused else Cancelled)] && NoEffect(s, t)
      && t.payments == s.payments[row := s.payments[row].(status := Failed)]
  {
    hide Wallet.Next;
    var me, p := |s.frames|, s.payments[row];
    var e, run := Resume(me, io), [StartVerify(authority, ok, row)];
    PendingEntry(s, authority, ok, row);
    ExecOne(s, run, e);
    if ok {
      var s1 := Suspend(s, VerifyAtGateway(row, p));
      GatewayStep(s1, me, row, p, io);
      FailedStep(s1.At(me, VerifyAtFail(row, Refused)), me, row, Refused, io);
      ExecOne(s, run + [e], e);
      assert run + [e] + [e] == run + [e, e];
    } else {
      FailedStep(Suspend(s, VerifyAtFail(row, Cancelled)), me, row, Cancelled, io);
    }
  }

  /** The payment is no longer pending. */
  predicate Decided(payments: seq<Payment>, pay: RowId) { pay < |payments| ==> payments[pay].status != Pending }

  lemma WasDecided(s: State, pay: RowId, gap: seq<Event>)
    ensures Decided(s.payments, pay) && pay < |s.payments| ==> Decided(Exec(s, gap).payments, pay)
    ensures pay < |s.payments| ==> pay < |Exec(s, gap).payments|
  {
    if pay < |s.payments| {
      StatusNeverReturns(s, gap, pay);
    }
  }

  /** A paid boost promotes its post until the plan's hours from now have passed, a paid account is open for thirty days. */
  ghost predicate EffectShows(t: State, p: Payment, now: int) {
    && (p.purpose == Boost && p.post.Some? && p.plan.Some? ==>
          p.post.value in t.promoted && t.promoted[p.post.value] == now + 3_600_000 * p.plan.value.durationHours)
    && (p.purpose == BusinessAccount ==> p.user in t.business && t.business[p.user] == now + 2_592_000_000)
  }

  lemma EffectWillShow(s: State, me: RowId, pay: RowId, snap: Payment, now: int)
    requires me < |s.frames|
    ensures EffectShows(ApplyStep(s, me, pay, snap, now), snap, now)
  {
    EffectIs(s, me, pay, snap, now);
    hide Wallet.ApplyStep;
  }

  /** What each reply of a callback that passed the pending check says of its payment. */
  ghost predicate VerifyOutcome(pay: RowId, payments: seq<Payment>, applied: seq<RowId>, reply: Reply) {
    match reply
    case PaymentDone => |applied| > 0 && applied[|applied| - 1] == pay
    case AlreadyProcessed(success) => Decided(payments, pay) && (success <==> pay < |payments| && payments[pay].status == Success)
    case other => other in {Cancelled, Refused} && Decided(payments, pay)
  }

  lemma EmptyRun(s: State)
    ensures Exec(s, []) == s
  {
  }

  lemma CheckSettles(now: State, me: RowId, user: UserId, amount: int, row: RowId)
    requires me < |now.frames| && ReserveOk(now, user, amount, row)
    ensures var t := CheckStep(now, me, user, amount, row); var settled := !(user in now.Balances() && now.Balances()[user] < 0);
      && me < |t.frames| && ReserveOk(t, user, amount, row)
      && t.frames[me] == (if settled then Done(PayoutMade(row)) else PayoutAtRestore(user, amount, row))
      && user in t.Balances() && (settled ==> t.Balances()[user] >= 0)
  {
  }

  lemma RestoreClears(now: State, me: RowId, user: UserId, amount: int, row: RowId)
    requires me < |now.frames| && ReserveOk(now, user, amount, row)
    ensures var t := RestoreStep(now, me, user, amount, row);
      me < |t.frames| && t.frames[me] == Done(InsufficientFunds) && row < |t.payouts| && t.payouts[row].None?
  {
  }

  lemma ReserveTakes(now: State, me: RowId, user: UserId, amount: int, iban: string)
    requires me < |now.frames|
    ensures var t := ReserveStep(now, me, user, amount, iban);
      && me < |t.frames|
      && (user !in now.Balances() ==> t.frames[me] == Done(InsufficientFunds))
      && (user in now.Balances() ==> |t.payouts| == |now.payouts| + 1 && t.frames[me] == PayoutAtCheck(user, amount, |now.payouts|))
  {
  }

  ghost predicate SameMoneyAs(a: State, b: State) { a.payments == b.payments && a.Balances() == b.Balances() }

  /** The balances after the refund of payment `p`: a top-up is taken back, anything else costs nothing. */
  function TakenBack(balances: map<UserId, int>, p: Payment): map<UserId, int> {
    if p.purpose == WalletTopup && p.user in balances then balances[p.user := balances[p.user] - p.amount] else balances
  }

  /** What each reply of a refund promises, from the state its transaction found to the state it left. */
  ghost predicate RefundOutcome(before: State, found: State, after: State, pay: RowId, reply: Reply) {
    match reply
    case NotFound => pay >= |before.payments| && SameMoneyAs(after, before)
    case NotRefundable => pay < |before.payments| && before.payments[pay].status != Success && SameMoneyAs(after, before)
    case AlreadyRefunded => pay < |found.payments| && found.payments[pay].status == Refunded && SameMoneyAs(after, found)
    case BalanceTooLow => pay < |found.payments| && SameMoneyAs(after, found)
      && found.payments[pay].status == Success && CannotTakeBack(found, found.payments[pay])
    case RefundDone => pay < |found.payments|
      && found.payments[pay].status == Success && !CannotTakeBack(found, found.payments[pay])
      && after.payments == found.payments[pay := found.payments[pay].(status := Refunded)]
      && after.Balances() == TakenBack(found.Balances(), found.payments[pay])
    case _ => false
  }

  predicate CannotTakeBack(s: State, p: Payment) {
    p.purpose == WalletTopup && (p.user !in s.Balances() || s.Balances()[p.user] < p.amount)
  }

  /** The transaction's outcome, when the row still has the terms that were read before. */
  lemma RefundMoney(found: State, me: RowId, pay: RowId, snap: Payment)
    requires me < |found.frames| && pay < |found.payments| && SameTerms(found.payments[pay], snap)
    requires found.payments[pay].status in {Success, Refunded}
    ensures var after := RefundStep(found, me, pay, snap); var p := found.payments[pay];
      && (p.status == Refunded ==> after.frames[me] == Done(AlreadyRefunded) && SameMoneyAs(after, found))
      && (p.status == Success && CannotTakeBack(found, p) ==> after.frames[me] == Done(BalanceTooLow) && SameMoneyAs(after, found))
      && (p.status == Success && !CannotTakeBack(found, p) ==>
            after.frames[me] == Done(RefundDone) && after.payments == found.payments[pay := p.(status := Refunded)]
            && after.Balances() == TakenBack(found.Balances(), p))
  {
  }

  /** While the refund waits, its payment keeps its terms and can only become refunded. */
  lemma SnapIsCurrent(s: State, pay: RowId, gap: seq<Event>)
    requires RefundEntry(s, pay).RefundAtTransaction?
    ensures var found := Exec(Suspend(s, RefundEntry(s, pay)), gap);
      pay < |found.payments| && SameTerms(found.payments[pay], RefundEntry(s, pay).snap)
      && found.payments[pay].status in {Success, Refunded}
  {
    StatusNeverReturns(Suspend(s, RefundEntry(s, pay)), gap, pay);
  }

  lemma EntryOutcome(s: State, pay: RowId)
    ensures var entry := RefundEntry(s, pay); entry.Done? || (entry.RefundAtTransaction? && entry.pay == pay)
    ensures var entry := RefundEntry(s, pay); entry.Done? ==> RefundOutcome(s, s, Suspend(s, entry), pay, entry.reply)
  {
  }

  lemma TransactionOutcome(s: State, pay: RowId, gap: seq<Event>, reply: Reply)
    requires var entry := RefundEntry(s, pay); entry.RefundAtTransaction?
    requires var entry := RefundEntry(s, pay); var found := Exec(Suspend(s, entry), gap); var me := |s.frames|;
      me < |found.frames| && me < |RefundStep(found, me, pay, entry.snap).frames| && RefundStep(found, me, pay, entry.snap).frames[me] == Done(reply)
    ensures var entry := RefundEntry(s, pay); var found := Exec(Suspend(s, entry), gap);
      RefundOutcome(s, found, RefundStep(found, |s.frames|, pay, entry.snap), pay, reply)
  {
    var entry := RefundEntry(s, pay);
    SnapIsCurrent(s, pay, gap);
    RefundMoney(Exec(Suspend(s, entry), gap), |s.frames|, pay, entry.snap);
    hide Wallet.RefundStep;
    hide Wallet.Exec;
  }

  class PaymentsService {
    var desk: Desk
    var payments: seq<Payment>
    var payouts: seq<Option<Payout>>
    var frames: seq<Frame>
    var audit: seq<WalletOp>
    var applied: seq<RowId>
    var promoted: map<PostId, int>
    var business: map<UserId, int>

    function View(): State
      reads this
    {
      State(desk, payments, payouts, frames, audit, applied, promoted, business)
    }

    constructor (s: State)
      ensures View() == s
    {
      desk, payments, payouts, frames := s.desk, s.payments, s.payouts, s.frames;
      audit, applied, promoted, business := s.audit, s.applied, s.promoted, s.business;
    }

    method MoveBalance(user: UserId, delta: int)
      requires user in View().Balances()
      modifies this`desk
      ensures View() == old(View()).Add(user, delta)
    {
      var books := desk.books;
      desk := desk.(books := books.(balance := books.balance[user := books.balance[user] + delta]));
    }

    /** Wait for the database while other requests run. */
    method Await(others: seq<Event>, me: RowId)
      requires me < |frames| && LeavesAlone(others, me)
      modifies this
      ensures View() == Exec(old(View()), others)
      ensures me < |frames| && frames[me] == old(frames)[me]
    {
      var i := 0;
      while i < |others|
        invariant 0 <= i <= |others|
        invariant View() == Exec(old(View()), others[..i])
        invariant me < |frames| && frames[me] == old(frames)[me]
      {
        OthersKeepFrame(View(), others[i], me);
        assert others[..i + 1][..i] == others[..i];
        var s := Next(View(), others[i]);
        desk, payments, payouts, frames := s.desk, s.payments, s.payouts, s.frames;
        audit, applied, promoted, business := s.audit, s.applied, s.promoted, s.business;
        i := i + 1;
      }
      assert others[..|others|] == others;
    }

    // -------------------------------------------------------------- payment callbacks

    method SetStatus(pay: RowId, status: PaymentStatus, ref: Option<string>)
      requires pay < |payments|
      modifies this`payments
      ensures View() == old(View()).Set(pay, status, ref)
    {
      payments := payments[pay := payments[pay].(status := status, refId := ref)];
    }

    /** `payment.findFirst` by authority. */
    method FindByAuthority(authority: string) returns (found: RowId)
      ensures found <= |payments|
      ensures found < |payments| ==> payments[found].authority == authority
      ensures forall i :: 0 <= i < found ==> payments[i].authority != authority
    {
      found := 0;
      while found < |payments| && payments[found].authority != authority
        invariant found <= |payments|
        invariant forall i :: 0 <= i < found ==> payments[i].authority != authority
      {
        found := found + 1;
      }
    }

    method AskGateway(me: RowId, gap: seq<Event>, io: Io)
      requires me < |frames| && frames[me].VerifyAtGateway? && LeavesAlone(gap, me)
      modifies this
      ensures View() == Next(Exec(old(View()), gap), Resume(me, io))
      ensures me < |frames| && frames[me] == var f := old(frames)[me];
        match io.gateway
        case Verified(ref) => VerifyAtClaim(f.pay, f.snap, ref)
        case NotVerified => VerifyAtFail(f.pay, Refused)
    {
      var f := frames[me];
      Await(gap, me);
      match io.gateway
      case Verified(ref) => frames := frames[me := VerifyAtClaim(f.pay, f.snap, ref)];
      case NotVerified => frames := frames[me := VerifyAtFail(f.pay, Refused)];
    }

    method WriteFailed(me: RowId, gap: seq<Event>, io: Io)
      requires me < |frames| && frames[me].VerifyAtFail? && LeavesAlone(gap, me)
      modifies this
      ensures View() == Next(Exec(old(View()), gap), Resume(me, io))
      ensures me < |frames| && frames[me] == Done(old(frames)[me].reply)
      ensures Decided(payments, old(frames)[me].pay)
    {
      var f := frames[me];
      Await(gap, me);
      frames := frames[me := Done(f.reply)];
      if f.pay < |payments| && payments[f.pay].status == Pending {
        SetStatus(f.pay, Failed, payments[f.pay].refId);
      }
    }

    /** The guarded pending-to-success update; `won` tells whether it affected the row. */
    method Claim(me: RowId, gap: seq<Event>, io: Io) returns (won: bool)
      requires me < |frames| && frames[me].VerifyAtClaim? && LeavesAlone(gap, me)
      modifies this
      ensures View() == Next(Exec(old(View()), gap), Resume(me, io))
      ensures me < |frames| && frames[me] == var f := old(frames)[me];
        if won then VerifyAtApply(f.pay, f.snap) else VerifyAtReread(f.pay)
      ensures !won ==> Decided(payments, old(frames)[me].pay)
    {
      var f := frames[me];
      Await(gap, me);
      won := f.pay < |payments| && payments[f.pay].status == Pending;
      if won {
        frames := frames[me := VerifyAtApply(f.pay, f.snap)];
        SetStatus(f.pay, Success, f.ref);
      } else {
        frames := frames[me := VerifyAtReread(f.pay)];
      }
    }

    method Reread(me: RowId, gap: seq<Event>, io: Io)
      requires me < |frames| && frames[me].VerifyAtReread? && LeavesAlone(gap, me)
      modifies this
      ensures View() == Next(Exec(old(View()), gap), Resume(me, io))
      ensures me < |frames| && payments == Exec(old(View()), gap).payments
      ensures frames[me] == Done(AlreadyProcessed(old(frames)[me].pay < |payments| && payments[old(frames)[me].pay].status == Success))
    {
      var pay := frames[me].pay;
      Await(gap, me);
      frames := frames[me := Done(AlreadyProcessed(pay < |payments| && payments[pay].status == Success))];
    }

    /** The side-effect branch: boost the post, extend the business account, or credit the wallet. */
    method ApplyEffect(me: RowId, gap: seq<Event>, io: Io)
      requires me < |frames| && frames[me].VerifyAtApply? && LeavesAlone(gap, me)
      modifies this
      ensures View() == Next(Exec(old(View()), gap), Resume(me, io))
      ensures me < |frames| && frames[me] == Done(PaymentDone)
      ensures |applied| > 0 && applied[|applied| - 1] == old(frames)[me].pay
      ensures EffectShows(View(), old(frames)[me].snap, io.now)
    {
      hide Wallet.Next;
      hide Wallet.Exec;
      hide EffectShows;
      var f := frames[me];
      var snap := f.snap;
      Await(gap, me);
      AppliedStep(View(), me, f.pay, snap, io);
      EffectWillShow(View(), me, f.pay, snap, io.now);
      frames := frames[me := Done(PaymentDone)];
      applied := applied + [f.pay];
      if snap.purpose == Boost && snap.post.Some? && snap.plan.Some? {
        promoted := promoted[snap.post.value := io.now + snap.plan.value.durationHours * HOUR_MS];
      } else if snap.purpose == BusinessAccount {
        business := business[snap.user := io.now + BUSINESS_MS];
      } else if snap.purpose == WalletTopup && snap.user in View().Balances() {
        MoveBalance(snap.user, snap.amount);
      }
    }

    /** What happens after the gateway said yes: claim, then either apply the effect or read the winner's status. */
    method ClaimAndApply(me: RowId, gap: seq<Event>, lastGap: seq<Event>, io: Io)
      returns (ghost run: seq<Event>)
      requires me < |frames| && frames[me].VerifyAtClaim? && frames[me].pay < |payments|
      requires LeavesAlone(gap, me) && LeavesAlone(lastGap, me)
      modifies this
      ensures View() == Exec(old(View()), run)
      ensures me < |frames| && frames[me].Done? && (frames[me].reply.PaymentDone? || frames[me].reply.AlreadyProcessed?)
      ensures VerifyOutcome(old(frames)[me].pay, payments, applied, frames[me].reply)
      ensures frames[me].reply == PaymentDone ==> EffectShows(View(), old(frames)[me].snap, io.now)
    {
      hide Wallet.Next;
      hide Wallet.Exec;
      hide EffectShows;
      ghost var before := View();
      EmptyRun(before);
      var won := Claim(me, gap, io);
      run := Resumed(before, [], gap, me, io);
      StatusNeverReturns(before, run, old(frames)[me].pay);
      if won {
        ApplyEffect(me, lastGap, io);
      } else {
        WasDecided(View(), old(frames)[me].pay, lastGap);
        Reread(me, lastGap, io);
      }
      run := Resumed(before, run, lastGap, me, io);
    }

    /** A callback that passed the pending check: ask the gateway when the user paid, then fail or claim. */
    method FinishVerify(me: RowId, gaps: seq<seq<Event>>, io: Io) returns (ghost run: seq<Event>)
      requires me < |frames| && (frames[me].VerifyAtGateway? || (frames[me].VerifyAtFail? && frames[me].reply == Cancelled))
      requires frames[me].pay < |payments| && Schedule(gaps, 3, me)
      modifies this
      ensures View() == Exec(old(View()), run)
      ensures me < |frames| && frames[me].Done?
      ensures VerifyOutcome(old(frames)[me].pay, payments, applied, frames[me].reply)
      ensures frames[me].reply == Cancelled <==> old(frames)[me].VerifyAtFail?
      ensures frames[me].reply == Refused <==> old(frames)[me].VerifyAtGateway? && io.gateway.NotVerified?
      ensures frames[me].reply == PaymentDone ==>
        old(frames)[me].VerifyAtGateway? && EffectShows(View(), old(frames)[me].snap, io.now)
    {
      hide Wallet.Next;
      hide EffectShows;
      ghost var before := View();
      if frames[me].VerifyAtFail? {
        WriteFailed(me, gaps[0], io);
        run := Resumed(before, [], gaps[0], me, io);
        return;
      }
      AskGateway(me, gaps[0], io);
      run := Resumed(before, [], gaps[0], me, io);
      if frames[me].VerifyAtFail? {
        WriteFailed(me, gaps[1], io);
        run := Resumed(before, run, gaps[1], me, io);
        return;
      }
      StatusNeverReturns(before, run, old(frames)[me].pay);
      ghost var part := ClaimAndApply(me, gaps[1], gaps[2], io);
      ExecConcat(before, run, part);
      run := run + part;
    }

    /**
     * A payment callback. Whatever runs meanwhile, a caller is told the payment was done only
     * when its effect has run, and then it has run exactly once; a replay is told exactly whether
     * the payment is successful, and no answer leaves it pending.
     */
    method Verify(authority: string, ok: bool, gaps: seq<seq<Event>>, io: Io, ghost opening: map<UserId, int>)
      returns (reply: Reply, row: RowId, ghost run: seq<Event>)
      requires Inv(View(), opening) && Schedule(gaps, 3, |frames|)
      modifies this
      ensures View() == Exec(old(View()), run) && Inv(View(), opening)
      ensures reply == NotFound <==> forall i :: 0 <= i < |old(payments)| ==> old(payments)[i].authority != authority
      ensures reply != NotFound ==> row < |old(payments)| && row < |payments| && old(payments)[row].authority == authority
      ensures match reply
        case NotFound => View() == old(View())
        case PaymentDone => old(payments)[row].status == Pending && payments[row].status in {Success, Refunded} && TimesApplied(View(), row) == 1
        case AlreadyProcessed(success) => payments[row].status != Pending && (success <==> payments[row].status == Success)
        case other => old(payments)[row].status == Pending && payments[row].status != Pending && other in {Cancelled, Refused}
      ensures reply != NotFound && old(payments)[row].status == Pending ==>
        (reply == Cancelled <==> !ok) && (reply == Refused <==> ok && io.gateway.NotVerified?)
      ensures reply == PaymentDone ==> EffectShows(View(), old(payments)[row], io.now)
    {
      hide EffectShows;
      hide Wallet.Next;
      hide WalletSafety.Inv;
      ghost var before := View();
      var me := |frames|;
      row := FindByAuthority(authority);
      run := [];
      if row == |payments| {
        return NotFound, row, run;
      }
      run := [StartVerify(authority, ok, row)];
      VerifyArrives(before, authority, ok, row);
      var payment := payments[row];
      frames := frames + [if payment.status != Pending then Done(AlreadyProcessed(payment.status == Success))
                          else if !ok then VerifyAtFail(row, Cancelled) else VerifyAtGateway(row, payment)];
      ExecKeepsInv(before, opening, run);
      if !frames[me].Done? {
        ghost var part := FinishVerify(me, gaps, io);
        ExecConcat(before, run, part);
        run := run + part;
        ExecKeepsInv(before, opening, run);
        StatusNeverReturns(before, run, row);
      }
      reply := frames[me].reply;
      if reply == PaymentDone {
        AppliedExactlyOnce(View(), opening, row);
      }
    }

    // -------------------------------------------------------------- refunds

    /**
     * A refund: read the payment, then one transaction that does both guarded writes or neither.
     * `found` is the state the transaction finds after the others have run.
     */
    method MarkRefunded(pay: RowId, gap: seq<Event>, io: Io, ghost opening: map<UserId, int>)
      returns (reply: Reply, ghost run: seq<Event>, ghost found: State)
      requires Inv(View(), opening) && LeavesAlone(gap, |frames|)
      modifies this
      ensures View() == Exec(old(View()), run) && Inv(View(), opening)
      ensures found == if RefundEntry(old(View()), pay).Done? then old(View())
        else Exec(Suspend(old(View()), RefundEntry(old(View()), pay)), gap)
      ensures RefundOutcome(old(View()), found, View(), pay, reply)
    {
      hide Wallet.Next;
      hide Wallet.Exec;
      hide Wallet.RefundStep;
      hide Wallet.RefundEntry;
      hide WalletSafety.Inv;
      hide RefundOutcome;
      ghost var before := View();
      var me := |frames|;
      run := [StartRefund(pay)];
      RefundArrives(before, pay);
      EntryOutcome(before, pay);
      var entry := RefundEntry(View(), pay);
      frames := frames + [entry];
      ExecKeepsInv(before, opening, run);
      if entry.Done? {
        return entry.reply, run, before;
      }
      found := Exec(View(), gap);
      reply := RefundTransaction(me, gap, io);
      run := Resumed(before, run, gap, me, io);
      ExecKeepsInv(before, opening, run);
      TransactionOutcome(before, pay, gap, reply);
    }

    method RefundTransaction(me: RowId, gap: seq<Event>, io: Io) returns (reply: Reply)
      requires me < |frames| && frames[me].RefundAtTransaction? && LeavesAlone(gap, me)
      modifies this
      ensures var found := Exec(old(View()), gap); var f := old(frames)[me];
        && me < |found.frames| && View() == RefundStep(found, me, f.pay, f.snap)
        && View() == Next(found, Resume(me, io))
      ensures me < |frames| && frames[me] == Done(reply)
    {
      var pay, snap := frames[me].pay, frames[me].snap;
      ghost var found := Exec(View(), gap);
      Await(gap, me);
      RefundIs(found, me, pay, snap, io);
      if pay >= |payments| || payments[pay].status != Success {
        reply := AlreadyRefunded;
      } else if snap.purpose != WalletTopup {
        SetStatus(pay, Refunded, payments[pay].refId);
        reply := RefundDone;
      } else if snap.user !in View().Balances() || View().Balances()[snap.user] < snap.amount {
        reply := BalanceTooLow;
      } else {
        SetStatus(pay, Refunded, payments[pay].refId);
        MoveBalance(snap.user, -snap.amount);
        reply := RefundDone;
      }
      frames := frames[me := Done(reply)];
    }

    // -------------------------------------------------------------- payouts

    /** `payout.count` of the user's pending and approved rows. */
    method CountOpenPayouts(me: RowId, gap: seq<Event>) returns (open: bool)
      requires me < |frames| && frames[me].PayoutAtCount? && LeavesAlone(gap, me)
      modifies this
      ensures var now := Exec(old(View()), gap); var f := old(frames)[me];
        && me < |now.frames| && now.frames[me] == f
        && open == HasOpenPayout(now, f.user)
        && View() == now.At(me, if open then Done(PayoutUnderReview) else PayoutAtReserve(f.user, f.amount, f.iban))
    {
      var f := frames[me];
      Await(gap, me);
      open := HasOpenPayout(View(), f.user);
      frames := frames[me := if open then Done(PayoutUnderReview) else PayoutAtReserve(f.user, f.amount, f.iban)];
    }

    /** The first transaction: decrement the wallet and create the row; it fails for an unknown user. */
    method ReservePayout(me: RowId, gap: seq<Event>)
      requires me < |frames| && frames[me].PayoutAtReserve? && LeavesAlone(gap, me)
      modifies this
      ensures var now := Exec(old(View()), gap); var f := old(frames)[me];
        && me < |now.frames| && now.frames[me] == f
        && View() == ReserveStep(now, me, f.user, f.amount, f.iban)
    {
      var f := frames[me];
      Await(gap, me);
      if f.user in View().Balances() {
        var row := |payouts|;
        MoveBalance(f.user, -f.amount);
        payouts := payouts + [Some(Payout(f.user, f.amount, f.iban, PayoutPending))];
        frames := frames[me := PayoutAtCheck(f.user, f.amount, row)];
      } else {
        frames := frames[me := Done(InsufficientFunds)];
      }
    }

    /** Read the balance back: a negative one must be repaired. */
    method CheckPayout(me: RowId, gap: seq<Event>) returns (settled: bool)
      requires me < |frames| && frames[me].PayoutAtCheck? && LeavesAlone(gap, me)
      modifies this
      ensures var now := Exec(old(View()), gap); var f := old(frames)[me];
        && me < |now.frames| && now.frames[me] == f
        && View() == CheckStep(now, me, f.user, f.amount, f.row)
        && settled == !(f.user in now.Balances() && now.Balances()[f.user] < 0)
    {
      var f := frames[me];
      Await(gap, me);
      settled := !(f.user in View().Balances() && View().Balances()[f.user] < 0);
      frames := frames[me := if settled then Done(PayoutMade(f.row)) else PayoutAtRestore(f.user, f.amount, f.row)];
    }

    /** The compensating transaction: increment the wallet and delete the row, or neither. */
    method RestorePayout(me: RowId, gap: seq<Event>)
      requires me < |frames| && frames[me].PayoutAtRestore? && LeavesAlone(gap, me)
      modifies this
      ensures var now := Exec(old(View()), gap); var f := old(frames)[me];
        && me < |now.frames| && now.frames[me] == f
        && View() == RestoreStep(now, me, f.user, f.amount, f.row)
    {
      var f := frames[me];
      Await(gap, me);
      if f.user in View().Balances() && f.row < |payouts| && payouts[f.row].Some? {
        MoveBalance(f.user, f.amount);
        payouts := payouts[f.row := None];
      }
      frames := frames[me := Done(InsufficientFunds)];
    }

    /** The second half of a withdrawal: the balance check, and the repair when it fails. */
    method SettlePayout(me: RowId, gap: seq<Event>, repairGap: seq<Event>, io: Io, ghost opening: map<UserId, int>)
      returns (settled: bool, ghost run: seq<Event>)
      requires Inv(View(), opening) && me < |frames| && frames[me].PayoutAtCheck?
      requires LeavesAlone(gap, me) && LeavesAlone(repairGap, me)
      modifies this
      ensures View() == Exec(old(View()), run)
      ensures me < |frames|
      ensures var f := old(frames)[me];
        && frames[me] == Done(if settled then PayoutMade(f.row) else InsufficientFunds)
        && (settled ==> ReserveOk(View(), f.user, f.amount, f.row) && View().Balances()[f.user] >= 0)
        && (!settled ==> f.row < |payouts| && payouts[f.row].None?)
    {
      hide Wallet.Next;
      hide Wallet.Exec;
      hide Wallet.ResumeStep;
      hide Wallet.CheckStep;
      hide Wallet.RestoreStep;
      hide WalletSafety.Inv;
      hide WalletSafety.ReserveOk;
      ghost var before := View();
      var f := frames[me];
      ghost var now := Exec(View(), gap);
      settled := CheckPayout(me, gap);
      EmptyRun(before);
      ReserveSurvives(before, opening, [], gap, me);
      CheckSettles(now, me, f.user, f.amount, f.row);
      PayoutCheckStep(now, me, f.user, f.amount, f.row, io);
      run := Resumed(before, [], gap, me, io);
      if !settled {
        now := Exec(View(), repairGap);
        RestorePayout(me, repairGap);
        ReserveSurvives(before, opening, run, repairGap, me);
        RestoreClears(now, me, f.user, f.amount, f.row);
        PayoutRestoreStep(now, me, f.user, f.amount, f.row, io);
        run := Resumed(before, run, repairGap, me, io);
      }
    }

    /** The first half of a withdrawal: nobody else's request is under review, and the money is taken. */
    method TakePayout(me: RowId, gap: seq<Event>, reserveGap: seq<Event>, io: Io, ghost opening: map<UserId, int>)
      returns (ghost run: seq<Event>)
      requires Inv(View(), opening) && me < |frames| && frames[me].PayoutAtCount?
      requires LeavesAlone(gap, me) && LeavesAlone(reserveGap, me)
      modifies this
      ensures View() == Exec(old(View()), run)
      ensures me < |frames|
      ensures var f := old(frames)[me];
        || frames[me] == Done(PayoutUnderReview)
        || (frames[me] == Done(InsufficientFunds) && f.user !in opening)
        || (|payouts| > |old(payouts)| && frames[me] == PayoutAtCheck(f.user, f.amount, |payouts| - 1))
      ensures frames[me] == Done(PayoutUnderReview) <==> HasOpenPayout(Exec(old(View()), gap), old(frames)[me].user)
    {
      hide Wallet.Next;
      hide Wallet.Exec;
      hide Wallet.ResumeStep;
      hide Wallet.ReserveStep;
      hide HasOpenPayout;
      hide WalletSafety.Inv;
      ghost var before := View();
      var f := frames[me];
      ghost var now := Exec(View(), gap);
      var open := CountOpenPayouts(me, gap);
      PayoutCountStep(now, me, f.user, f.amount, f.iban, io);
      EmptyRun(before);
      run := Resumed(before, [], gap, me, io);
      if !open {
        now := Exec(View(), reserveGap);
        PayoutsOnlyGrow(before, run);
        PayoutsOnlyGrow(View(), reserveGap);
        ReservePayout(me, reserveGap);
        UsersAreFixed(before, opening, run, reserveGap);
        ReserveTakes(now, me, f.user, f.amount, f.iban);
        PayoutReserveStep(now, me, f.user, f.amount, f.iban, io);
        run := Resumed(before, run, reserveGap, me, io);
      }
    }

    /**
     * A withdrawal: count, reserve, check, and give back when the balance went below zero.
     * A granted request leaves its row in the table; a refused one leaves no row behind.
     */
    method CreatePayout(user: UserId, amount: int, iban: string, gaps: seq<seq<Event>>, io: Io,
                        ghost opening: map<UserId, int>)
      returns (reply: Reply, ghost run: seq<Event>, row: RowId)
      requires Inv(View(), opening) && Schedule(gaps, 4, |frames|)
      modifies this
      ensures View() == Exec(old(View()), run) && Inv(View(), opening)
      ensures |old(frames)| < |frames| && frames[|old(frames)|] == Done(reply)
      ensures match reply
        case PayoutMade(made) => amount > 0 && made == row && |old(payouts)| <= row
          && ReserveOk(View(), user, amount, row) && View().Balances()[user] >= 0
        case InsufficientFunds => amount > 0 &&
          (user in opening ==> |old(payouts)| <= row < |payouts| && payouts[row].None?)
        case PayoutUnderReview => amount > 0
        case other => other == BadAmount && amount <= 0
      ensures reply == PayoutUnderReview <==>
        amount > 0 && HasOpenPayout(Exec(Suspend(old(View()), PayoutAtCount(user, amount, iban)), gaps[0]), user)
    {
      hide Wallet.Next;
      hide WalletSafety.Inv;
      var me := |frames|;
      ghost var before := View();
      run := [StartPayout(user, amount, iban)];
      PayoutArrives(before, user, amount, iban);
      frames := frames + [if amount <= 0 then Done(BadAmount) else PayoutAtCount(user, amount, iban)];
      ExecKeepsInv(before, opening, run);
      if amount <= 0 {
        return BadAmount, run, 0;
      }
      ghost var part := TakePayout(me, gaps[0], gaps[1], io, opening);
      ExecConcat(before, run, part);
      run := run + part;
      ExecKeepsInv(before, opening, run);
      assert |before.payouts| == |old(payouts)|;
      if frames[me].Done? {
        return frames[me].reply, run, 0;
      }
      row := frames[me].row;
      var settled;
      settled, part := SettlePayout(me, gaps[2], gaps[3], io, opening);
      ExecConcat(before, run, part);
      run := run + part;
      ExecKeepsInv(before, opening, run);
      reply := if settled then PayoutMade(row) else InsufficientFunds;
    }
  }

  /** The run so far, then the requests that ran meanwhile, then one resumption of `me`. */
  ghost function Resumed(s: State, run: seq<Event>, gap: seq<Event>, me: RowId, io: Io): (longer: seq<Event>)
    ensures Exec(s, longer) == Next(Exec(Exec(s, run), gap), Resume(me, io))
  {
    ExecGap(s, run, gap, Resume(me, io));
    run + gap + [Resume(me, io)]
  }

  lemma {:induction false} PayoutsOnlyGrow(s: State, run: seq<Event>)
    ensures |s.payouts| <= |Exec(s, run).payouts|
  {
    if run != [] {
      var before := Exec(s, run[..|run| - 1]);
      var e := run[|run| - 1];
      PayoutsOnlyGrow(s, run[..|run| - 1]);
      if !(e.Resume? && e.frame < |before.frames| && before.frames[e.frame].PayoutAtReserve?) {
        if !(e.Resume? && e.frame < |before.frames| && before.frames[e.frame].ApproveAtWrite?) {
          ClosedStaysClosed(before, e);
        }
      }
    }
  }
}
