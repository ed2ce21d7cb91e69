/**
 * What every interleaving of wallet requests keeps: no user is overdrawn once in-flight
 * payouts are counted, the balance is explained by the ledger rows, and each payment takes
 * effect at most once.
 */
module WalletSafety {
  import opened Optional
  import opened Sums
  import opened AdBilling
  import opened AdCampaigns
  import opened Wallet

  // ---------------------------------------------------------------- ledger columns

  function Reserved(u: UserId): Frame -> int {
    (f: Frame) => if (f.PayoutAtCheck? || f.PayoutAtRestore?) && f.user == u then f.amount else 0
  }
  function Uncredited(u: UserId): Frame -> int {
    (f: Frame) => if f.VerifyAtApply? && f.snap.purpose == WalletTopup && f.snap.user == u then f.snap.amount else 0
  }
  function Applying(p: RowId): Frame -> int { (f: Frame) => if f.VerifyAtApply? && f.pay == p then 1 else 0 }
  function AppliedTo(p: RowId): RowId -> int { (q: RowId) => if q == p then 1 else 0 }
  function ToppedUp(u: UserId): Payment -> int {
    (p: Payment) => if p.purpose == WalletTopup && p.status == Success && p.user == u then p.amount else 0
  }
  function Withdrawn(u: UserId): Option<Payout> -> int {
    (p: Option<Payout>) => if p.Some? && p.value.user == u then p.value.amount else 0
  }
  function Adjusted(u: UserId): WalletOp -> int { (op: WalletOp) => if op.user == u then op.delta else 0 }

  /** The payouts of `u` whose money is taken and whose balance check is still to come. */
  function InFlight(s: State, u: UserId): int { Sum(s.frames, Reserved(u)) }

  /** How often the side-effect branch of payment `p` ran. */
  function TimesApplied(s: State, p: RowId): int { Sum(s.applied, AppliedTo(p)) }

  /** The balance of `u` as the ledger rows explain it. */
  function Explained(s: State, opening: map<UserId, int>, u: UserId): int {
    (if u in opening then opening[u] else 0) + Sum(s.payments, ToppedUp(u)) - Sum(s.frames, Uncredited(u))
    + Sum(s.audit, Adjusted(u)) - Sum(s.payouts, Withdrawn(u)) - AdSpend(s.desk.books, u)
  }

  // ---------------------------------------------------------------- the invariant

  /** The columns of a payment row that are written once. */
  predicate SameTerms(p: Payment, q: Payment) {
    p.user == q.user && p.amount == q.amount && p.purpose == q.purpose && p.post == q.post
    && p.plan == q.plan && p.authority == q.authority
  }

  predicate HoldsReserve(f: Frame) { f.PayoutAtCheck? || f.PayoutAtRestore? }

  ghost predicate PaymentOk(s: State, p: Payment) {
    p.user in s.Balances() && (p.purpose == WalletTopup ==> p.amount >= MIN_TOPUP)
  }

  ghost predicate SnapOk(s: State, pay: RowId, snap: Payment) {
    pay < |s.payments| && SameTerms(s.payments[pay], snap) && PaymentOk(s, snap)
  }

  ghost predicate FrameOk(s: State, f: Frame) {
    match f
    case VerifyAtGateway(pay, snap) => SnapOk(s, pay, snap)
    case VerifyAtClaim(pay, snap, _) => SnapOk(s, pay, snap)
    case VerifyAtApply(pay, snap) => SnapOk(s, pay, snap)
    case RefundAtTransaction(pay, snap) => SnapOk(s, pay, snap)
    case VerifyAtFail(pay, _) => pay < |s.payments|
    case VerifyAtReread(pay) => pay < |s.payments|
    case PayoutAtCount(_, amount, _) => amount > 0
    case PayoutAtReserve(_, amount, _) => amount > 0
    case PayoutAtCheck(u, amount, row) => ReserveOk(s, u, amount, row)
    case PayoutAtRestore(u, amount, row) => ReserveOk(s, u, amount, row)
    case ApproveAtWrite(_) => true
    case Done(_) => true
  }

  ghost predicate ReserveOk(s: State, u: UserId, amount: int, row: RowId) {
    && amount > 0 && u in s.Balances()
    && row < |s.payouts| && s.payouts[row].Some? && s.payouts[row].value.user == u && s.payouts[row].value.amount == amount
  }

  ghost predicate Rows(s: State) {
    && Sound(s.desk.books)
    && (forall p :: 0 <= p < |s.payments| ==> PaymentOk(s, s.payments[p]))
    && (forall i :: 0 <= i < |s.frames| ==> FrameOk(s, s.frames[i]))
    && (forall i, j :: 0 <= i < j < |s.frames| && HoldsReserve(s.frames[i]) && HoldsReserve(s.frames[j])
          ==> s.frames[i].row != s.frames[j].row)
  }

  /** The effect of a claimed payment has run once or is owned by one request; otherwise neither. */
  ghost predicate Once(s: State, p: RowId)
    requires p < |s.payments|
  {
    TimesApplied(s, p) + Sum(s.frames, Applying(p)) == if s.payments[p].status in {Success, Refunded} then 1 else 0
  }

  /** Not overdrawn beyond the payouts in flight, and explained by the ledger. */
  ghost predicate Accounted(s: State, opening: map<UserId, int>, u: UserId)
    requires u in s.Balances()
  {
    s.Balances()[u] + InFlight(s, u) >= 0 && s.Balances()[u] == Explained(s, opening, u)
  }

  ghost predicate Inv(s: State, opening: map<UserId, int>) {
    && Rows(s)
    && opening.Keys == s.Balances().Keys
    && (forall i :: 0 <= i < |s.applied| ==> s.applied[i] < |s.payments|)
    && (forall p: RowId :: p < |s.payments| ==> Once(s, p))
    && (forall u :: u in s.Balances() ==> Accounted(s, opening, u))
  }

  // ---------------------------------------------------------------- the shape of a step

  ghost predicate KeepsReserve(p: Option<Payout>, q: Option<Payout>) {
    p.Some? ==> q.Some? && q.value.user == p.value.user && q.value.amount == p.value.amount
  }

  /**
   * What every resumption respects: it rewrites its own frame, keeps the terms of payments,
   * and keeps the user and amount of every payout row another request holds.
   */
  ghost predicate RespectsRows(s: State, t: State, r: RowId)
    requires r < |s.frames|
  {
    && |t.frames| == |s.frames| && t.frames == s.frames[r := t.frames[r]]
    && s.Balances().Keys <= t.Balances().Keys
    && Sound(t.desk.books)
    && |t.payments| == |s.payments| && (forall p :: 0 <= p < |s.payments| ==> SameTerms(s.payments[p], t.payments[p]))
    && |s.payouts| <= |t.payouts|
    && (forall i :: 0 <= i < |s.frames| && i != r && HoldsReserve(s.frames[i]) && s.frames[i].row < |s.payouts|
         ==> KeepsReserve(s.payouts[s.frames[i].row], t.payouts[s.frames[i].row]))
    && FrameOk(t, t.frames[r])
    && (HoldsReserve(t.frames[r]) ==>
         t.frames[r].row >= |s.payouts| || (HoldsReserve(s.frames[r]) && s.frames[r].row == t.frames[r].row))
  }

  lemma StepKeepsRows(s: State, t: State, r: RowId)
    requires Rows(s) && r < |s.frames| && RespectsRows(s, t, r)
    ensures Rows(t)
  {
    hide AdBilling.Sound;
    forall i | 0 <= i < |t.frames| ensures FrameOk(t, t.frames[i]) {
      assert FrameOk(s, s.frames[i]);
      if i != r && HoldsReserve(s.frames[i]) {
        assert ReserveOk(s, s.frames[i].user, s.frames[i].amount, s.frames[i].row);
      }
    }
    forall i | 0 <= i < |s.frames| && HoldsReserve(s.frames[i]) ensures s.frames[i].row < |s.payouts| {
      assert FrameOk(s, s.frames[i]);
    }
  }

  lemma BalanceKeepsSound(b: Books, balance: map<UserId, int>)
    requires Sound(b) && b.balance.Keys <= balance.Keys
    ensures Sound(b.(balance := balance))
  {
    var after := b.(balance := balance);
    forall c: RowId | c < |after.campaigns| ensures LedgersAgree(after, c) {
      assert LedgersAgree(b, c);
    }
  }

  /** Money reserved by a request that passed its check is positive, so it only adds. */
  lemma InFlightNonNegative(s: State, u: UserId)
    requires Rows(s)
    ensures InFlight(s, u) >= 0
  {
    hide Sums.Sum;
    hide AdBilling.Sound;
    forall i | 0 <= i < |s.frames| ensures Reserved(u)(s.frames[i]) >= 0 {
      assert FrameOk(s, s.frames[i]);
    }
    SumNonNegative(s.frames, Reserved(u));
  }

  /** A step that rewrites its frame, one payment's status and some balances respects the rows. */
  lemma PaymentStepRespectsRows(s: State, t: State, r: RowId, pay: RowId)
    requires Rows(s) && r < |s.frames| && pay < |s.payments|
    requires |t.frames| == |s.frames| && t.frames == s.frames[r := t.frames[r]] && t.frames[r].Done?
    requires |t.payments| == |s.payments| && t.payments == s.payments[pay := t.payments[pay]]
    requires SameTerms(s.payments[pay], t.payments[pay]) && t.payouts == s.payouts
    requires s.Balances().Keys <= t.Balances().Keys
    requires t.desk.books == s.desk.books.(balance := t.Balances())
    ensures RespectsRows(s, t, r)
  {
    hide AdBilling.Sound;
    BalanceKeepsSound(s.desk.books, t.Balances());
  }

  lemma ApplyRespectsRows(s: State, r: RowId, pay: RowId, snap: Payment, now: int)
    requires Rows(s) && r < |s.frames| && s.frames[r] == VerifyAtApply(pay, snap) && pay < |s.payments|
    ensures RespectsRows(s, ApplyStep(s, r, pay, snap, now), r)
  {
    hide AdBilling.Sound;
    PaymentStepRespectsRows(s, ApplyStep(s, r, pay, snap, now), r, pay);
  }

  lemma RefundRespectsRows(s: State, r: RowId, pay: RowId, snap: Payment)
    requires Rows(s) && r < |s.frames| && s.frames[r] == RefundAtTransaction(pay, snap) && pay < |s.payments|
    ensures RespectsRows(s, RefundStep(s, r, pay, snap), r)
  {
    hide AdBilling.Sound;
    PaymentStepRespectsRows(s, RefundStep(s, r, pay, snap), r, pay);
  }

  lemma VerifyRespectsRows(s: State, r: RowId, io: Io)
    requires Rows(s) && r < |s.frames|
    requires var f := s.frames[r]; f.VerifyAtGateway? || f.VerifyAtFail? || f.VerifyAtClaim? || f.VerifyAtReread?
    ensures RespectsRows(s, ResumeStep(s, r, io), r)
  {
    hide AdBilling.Sound;
    assert FrameOk(s, s.frames[r]);
    var t := ResumeStep(s, r, io);
    assert t.payouts == s.payouts && t.desk == s.desk;
  }

  lemma ReserveRespectsRows(s: State, r: RowId, user: UserId, amount: int, iban: string)
    requires Rows(s) && r < |s.frames| && s.frames[r] == PayoutAtReserve(user, amount, iban) && amount > 0
    ensures RespectsRows(s, ReserveStep(s, r, user, amount, iban), r)
  {
    hide AdBilling.Sound;
    var t := ReserveStep(s, r, user, amount, iban);
    BalanceKeepsSound(s.desk.books, t.Balances());
    assert t.desk.books == s.desk.books.(balance := t.Balances()) && t.payments == s.payments;
  }

  lemma RestoreRespectsRows(s: State, r: RowId, user: UserId, amount: int, row: RowId)
    requires Rows(s) && r < |s.frames| && s.frames[r] == PayoutAtRestore(user, amount, row)
    ensures RespectsRows(s, RestoreStep(s, r, user, amount, row), r)
  {
    hide AdBilling.Sound;
    var t := RestoreStep(s, r, user, amount, row);
    assert FrameOk(s, s.frames[r]);
    BalanceKeepsSound(s.desk.books, t.Balances());
    assert t.desk.books == s.desk.books.(balance := t.Balances()) && t.payments == s.payments;
  }

  lemma QuietRespectsRows(s: State, r: RowId, io: Io)
    requires Rows(s) && r < |s.frames|
    requires var f := s.frames[r]; f.PayoutAtCount? || f.PayoutAtCheck? || f.ApproveAtWrite?
    ensures RespectsRows(s, ResumeStep(s, r, io), r)
  {
    hide AdBilling.Sound;
    assert FrameOk(s, s.frames[r]);
    var t := ResumeStep(s, r, io);
    assert t.payments == s.payments && t.desk == s.desk;
  }

  lemma ResumeRespectsRows(s: State, r: RowId, io: Io)
    requires Rows(s) && r < |s.frames| && FrameOk(s, s.frames[r]) && !s.frames[r].Done?
    ensures RespectsRows(s, ResumeStep(s, r, io), r)
  {
    hide AdBilling.Sound;
    match s.frames[r]
    case VerifyAtApply(pay, snap) => ApplyRespectsRows(s, r, pay, snap, io.now);
    case RefundAtTransaction(pay, snap) => RefundRespectsRows(s, r, pay, snap);
    case VerifyAtGateway(_, _) => VerifyRespectsRows(s, r, io);
    case VerifyAtFail(_, _) => VerifyRespectsRows(s, r, io);
    case VerifyAtClaim(_, _, _) => VerifyRespectsRows(s, r, io);
    case VerifyAtReread(_) => VerifyRespectsRows(s, r, io);
    case PayoutAtReserve(user, amount, iban) => ReserveRespectsRows(s, r, user, amount, iban);
    case PayoutAtRestore(user, amount, row) => RestoreRespectsRows(s, r, user, amount, row);
    case _ => QuietRespectsRows(s, r, io);
  }

  lemma {:induction false} ResumeKeepsRows(s: State, r: RowId, io: Io)
    requires Rows(s) && r < |s.frames|
    ensures Rows(ResumeStep(s, r, io))
  {
    hide AdBilling.Sound;
    if !s.frames[r].Done? {
      ResumeRespectsRows(s, r, io);
      StepKeepsRows(s, ResumeStep(s, r, io), r);
    }
  }

  // ---------------------------------------------------------------- each payment takes effect once

  /** The claim is the only step that makes a request own an effect, and it needs a pending row. */
  lemma ClaimKeepsOnce(s: State, r: RowId, pay: RowId, snap: Payment, ref: Option<string>, p: RowId)
    requires r < |s.frames| && s.frames[r] == VerifyAtClaim(pay, snap, ref)
    requires pay < |s.payments| && p < |s.payments| && Once(s, p)
    ensures Once(ClaimStep(s, r, pay, snap, ref), p)
  {
    hide Sums.Sum;
    SumUpdate(s.frames, r, ClaimStep(s, r, pay, snap, ref).frames[r], Applying(p));
  }

  lemma ApplyKeepsOnce(s: State, r: RowId, pay: RowId, snap: Payment, now: int, p: RowId)
    requires r < |s.frames| && s.frames[r] == VerifyAtApply(pay, snap) && p < |s.payments| && Once(s, p)
    ensures Once(ApplyStep(s, r, pay, snap, now), p)
  {
    hide Sums.Sum;
    var t := ApplyStep(s, r, pay, snap, now);
    assert t.frames == s.frames[r := Done(PaymentDone)] && t.applied == s.applied + [pay] && t.payments == s.payments;
    SumUpdate(s.frames, r, Done(PaymentDone), Applying(p));
    SumAppend(s.applied, pay, AppliedTo(p));
  }

  /** Failing and refunding change no row between claimed and unclaimed. */
  lemma FailKeepsOnce(s: State, r: RowId, pay: RowId, reply: Reply, p: RowId)
    requires r < |s.frames| && s.frames[r] == VerifyAtFail(pay, reply)
    requires pay < |s.payments| && p < |s.payments| && Once(s, p)
    ensures Once(FailStep(s, r, pay, reply), p)
  {
    hide Sums.Sum;
    SumUpdate(s.frames, r, Done(reply), Applying(p));
  }

  lemma RefundKeepsOnce(s: State, r: RowId, pay: RowId, snap: Payment, p: RowId)
    requires r < |s.frames| && s.frames[r] == RefundAtTransaction(pay, snap)
    requires pay < |s.payments| && p < |s.payments| && Once(s, p)
    ensures Once(RefundStep(s, r, pay, snap), p)
  {
    hide Sums.Sum;
    SumUpdate(s.frames, r, RefundStep(s, r, pay, snap).frames[r], Applying(p));
  }

  lemma OtherStepsKeepOnce(s: State, t: State, r: RowId, p: RowId)
    requires r < |s.frames| && |t.frames| == |s.frames| && t.frames == s.frames[r := t.frames[r]]
    requires !s.frames[r].VerifyAtApply? && !t.frames[r].VerifyAtApply?
    requires t.payments == s.payments && t.applied == s.applied && p < |s.payments| && Once(s, p)
    ensures Once(t, p)
  {
    hide Sums.Sum;
    SumUpdate(s.frames, r, t.frames[r], Applying(p));
  }

  lemma ResumeKeepsOnce(s: State, r: RowId, io: Io, p: RowId)
    requires r < |s.frames| && FrameOk(s, s.frames[r]) && p < |s.payments| && Once(s, p)
    ensures p < |ResumeStep(s, r, io).payments| && Once(ResumeStep(s, r, io), p)
  {
    hide Sums.Sum;
    match s.frames[r]
    case VerifyAtFail(pay, reply) => FailKeepsOnce(s, r, pay, reply, p);
    case VerifyAtClaim(pay, snap, ref) => ClaimKeepsOnce(s, r, pay, snap, ref, p);
    case VerifyAtApply(pay, snap) => ApplyKeepsOnce(s, r, pay, snap, io.now, p);
    case RefundAtTransaction(pay, snap) => RefundKeepsOnce(s, r, pay, snap, p);
    case Done(_) =>
    case _ => OtherStepsKeepOnce(s, ResumeStep(s, r, io), r, p);
  }

  // ---------------------------------------------------------------- each user's money

  /** The claim moves a top-up from unpaid to paid-but-uncredited: no balance changes. */
  lemma ClaimKeepsAccount(s: State, opening: map<UserId, int>, r: RowId, pay: RowId, snap: Payment, ref: Option<string>, u: UserId)
    requires r < |s.frames| && s.frames[r] == VerifyAtClaim(pay, snap, ref) && SnapOk(s, pay, snap)
    requires u in s.Balances() && Accounted(s, opening, u)
    ensures Accounted(ClaimStep(s, r, pay, snap, ref), opening, u)
  {
    hide Sums.Sum;
    var t := ClaimStep(s, r, pay, snap, ref);
    SumUpdate(s.frames, r, t.frames[r], Reserved(u));
    SumUpdate(s.frames, r, t.frames[r], Uncredited(u));
    SumUpdate(s.payments, pay, t.payments[pay], ToppedUp(u));
  }

  lemma ApplyKeepsAccount(s: State, opening: map<UserId, int>, r: RowId, pay: RowId, snap: Payment, now: int, u: UserId)
    requires r < |s.frames| && s.frames[r] == VerifyAtApply(pay, snap) && SnapOk(s, pay, snap)
    requires u in s.Balances() && Accounted(s, opening, u)
    ensures Accounted(ApplyStep(s, r, pay, snap, now), opening, u)
  {
    hide Sums.Sum;
    SumUpdate(s.frames, r, Done(PaymentDone), Reserved(u));
    SumUpdate(s.frames, r, Done(PaymentDone), Uncredited(u));
  }

  lemma FailKeepsAccount(s: State, opening: map<UserId, int>, r: RowId, pay: RowId, reply: Reply, u: UserId)
    requires r < |s.frames| && s.frames[r] == VerifyAtFail(pay, reply) && pay < |s.payments|
    requires u in s.Balances() && Accounted(s, opening, u)
    ensures Accounted(FailStep(s, r, pay, reply), opening, u)
  {
    hide Sums.Sum;
    var t := FailStep(s, r, pay, reply);
    SumUpdate(s.frames, r, t.frames[r], Reserved(u));
    SumUpdate(s.frames, r, t.frames[r], Uncredited(u));
    SumUpdate(s.payments, pay, t.payments[pay], ToppedUp(u));
  }

  /** What a finished refund does to one user: the balance falls with the successful top-ups. */
  lemma RefundMoves(s: State, r: RowId, pay: RowId, snap: Payment, u: UserId)
    requires r < |s.frames| && s.frames[r] == RefundAtTransaction(pay, snap) && SnapOk(s, pay, snap) && u in s.Balances()
    ensures var t := RefundStep(s, r, pay, snap);
      && |t.frames| == |s.frames| && t.frames == s.frames[r := t.frames[r]] && t.frames[r].Done?
      && |t.payments| == |s.payments| && t.payments == s.payments[pay := t.payments[pay]]
      && t.payouts == s.payouts && t.audit == s.audit
      && t.desk.books == s.desk.books.(balance := t.Balances()) && u in t.Balances()
      && t.Balances()[u] - s.Balances()[u] == ToppedUp(u)(t.payments[pay]) - ToppedUp(u)(s.payments[pay])
      && (t.Balances()[u] == s.Balances()[u] || t.Balances()[u] >= 0)
  {
  }

  lemma RefundKeepsAccount(s: State, opening: map<UserId, int>, r: RowId, pay: RowId, snap: Payment, u: UserId)
    requires r < |s.frames| && s.frames[r] == RefundAtTransaction(pay, snap) && SnapOk(s, pay, snap)
    requires u in s.Balances() && Accounted(s, opening, u) && InFlight(s, u) >= 0
    ensures u in RefundStep(s, r, pay, snap).Balances() && Accounted(RefundStep(s, r, pay, snap), opening, u)
  {
    hide Sums.Sum;
    var t := RefundStep(s, r, pay, snap);
    RefundMoves(s, r, pay, snap, u);
    SumUpdate(s.frames, r, t.frames[r], Reserved(u));
    SumUpdate(s.frames, r, t.frames[r], Uncredited(u));
    SumUpdate(s.payments, pay, t.payments[pay], ToppedUp(u));
  }

  /** Taking the money and recording the payout keep the account, even when the balance dips below zero. */
  lemma ReserveKeepsAccount(s: State, opening: map<UserId, int>, r: RowId, user: UserId, amount: int, iban: string, u: UserId)
    requires r < |s.frames| && s.frames[r] == PayoutAtReserve(user, amount, iban)
    requires u in s.Balances() && Accounted(s, opening, u)
    ensures Accounted(ReserveStep(s, r, user, amount, iban), opening, u)
  {
    hide Sums.Sum;
    var t := ReserveStep(s, r, user, amount, iban);
    SumUpdate(s.frames, r, t.frames[r], Reserved(u));
    SumUpdate(s.frames, r, t.frames[r], Uncredited(u));
    SumAppend(s.payouts, Some(Payout(user, amount, iban, PayoutPending)), Withdrawn(u));
  }

  /** A payout leaves flight only on a balance that was read as non-negative. */
  lemma CheckKeepsAccount(s: State, opening: map<UserId, int>, r: RowId, user: UserId, amount: int, row: RowId, u: UserId)
    requires r < |s.frames| && s.frames[r] == PayoutAtCheck(user, amount, row) && user in s.Balances()
    requires u in s.Balances() && Accounted(s, opening, u) && InFlight(CheckStep(s, r, user, amount, row), u) >= 0
    ensures Accounted(CheckStep(s, r, user, amount, row), opening, u)
  {
    hide Sums.Sum;
    var t := CheckStep(s, r, user, amount, row);
    SumUpdate(s.frames, r, t.frames[r], Reserved(u));
    SumUpdate(s.frames, r, t.frames[r], Uncredited(u));
  }

  lemma RestoreKeepsAccount(s: State, opening: map<UserId, int>, r: RowId, user: UserId, amount: int, row: RowId, u: UserId)
    requires r < |s.frames| && s.frames[r] == PayoutAtRestore(user, amount, row) && ReserveOk(s, user, amount, row)
    requires u in s.Balances() && Accounted(s, opening, u)
    ensures Accounted(RestoreStep(s, r, user, amount, row), opening, u)
  {
    hide Sums.Sum;
    SumUpdate(s.frames, r, Done(InsufficientFunds), Reserved(u));
    SumUpdate(s.frames, r, Done(InsufficientFunds), Uncredited(u));
    SumUpdate(s.payouts, row, None, Withdrawn(u));
  }

  /** Approving, rejecting or paying a payout row moves no money. */
  lemma PayoutStatusMovesNothing(s: State, row: RowId, status: PayoutStatus, u: UserId)
    ensures Sum(WithPayoutStatus(s, row, status).payouts, Withdrawn(u)) == Sum(s.payouts, Withdrawn(u))
  {
    hide Sums.Sum;
    var t := WithPayoutStatus(s, row, status);
    if row < |s.payouts| && s.payouts[row].Some? {
      SumUpdate(s.payouts, row, t.payouts[row], Withdrawn(u));
    }
  }

  lemma QuietKeepsAccount(s: State, t: State, opening: map<UserId, int>, r: RowId, u: UserId)
    requires r < |s.frames| && |t.frames| == |s.frames| && t.frames == s.frames[r := t.frames[r]]
    requires Reserved(u)(s.frames[r]) == Reserved(u)(t.frames[r]) && Uncredited(u)(s.frames[r]) == Uncredited(u)(t.frames[r])
    requires t.payments == s.payments && t.audit == s.audit && t.desk == s.desk
    requires Sum(t.payouts, Withdrawn(u)) == Sum(s.payouts, Withdrawn(u))
    requires u in s.Balances() && Accounted(s, opening, u)
    ensures Accounted(t, opening, u)
  {
    hide Sums.Sum;
    SumUpdate(s.frames, r, t.frames[r], Reserved(u));
    SumUpdate(s.frames, r, t.frames[r], Uncredited(u));
  }

  lemma ReadsKeepAccount(s: State, opening: map<UserId, int>, r: RowId, io: Io, u: UserId)
    requires r < |s.frames| && u in s.Balances() && Accounted(s, opening, u)
    requires var f := s.frames[r];
      f.VerifyAtGateway? || f.VerifyAtReread? || f.PayoutAtCount? || f.ApproveAtWrite?
    ensures u in ResumeStep(s, r, io).Balances() && Accounted(ResumeStep(s, r, io), opening, u)
  {
    hide Sums.Sum;
    if s.frames[r].ApproveAtWrite? {
      PayoutStatusMovesNothing(s, s.frames[r].row, PayoutApproved, u);
    }
    QuietKeepsAccount(s, ResumeStep(s, r, io), opening, r, u);
  }

  lemma PaymentStepsKeepAccount(s: State, opening: map<UserId, int>, r: RowId, io: Io, u: UserId)
    requires r < |s.frames| && FrameOk(s, s.frames[r])
    requires var f := s.frames[r]; f.VerifyAtFail? || f.VerifyAtClaim? || f.VerifyAtApply? || f.RefundAtTransaction?
    requires u in s.Balances() && Accounted(s, opening, u) && InFlight(s, u) >= 0
    ensures u in ResumeStep(s, r, io).Balances() && Accounted(ResumeStep(s, r, io), opening, u)
  {
    hide Sums.Sum;
    match s.frames[r]
    case VerifyAtFail(pay, reply) => FailKeepsAccount(s, opening, r, pay, reply, u);
    case VerifyAtClaim(pay, snap, ref) => ClaimKeepsAccount(s, opening, r, pay, snap, ref, u);
    case VerifyAtApply(pay, snap) => ApplyKeepsAccount(s, opening, r, pay, snap, io.now, u);
    case RefundAtTransaction(pay, snap) => RefundKeepsAccount(s, opening, r, pay, snap, u);
  }

  lemma PayoutStepsKeepAccount(s: State, opening: map<UserId, int>, r: RowId, io: Io, u: UserId)
    requires r < |s.frames| && FrameOk(s, s.frames[r])
    requires var f := s.frames[r]; f.PayoutAtReserve? || f.PayoutAtCheck? || f.PayoutAtRestore?
    requires u in s.Balances() && Accounted(s, opening, u) && InFlight(ResumeStep(s, r, io), u) >= 0
    ensures u in ResumeStep(s, r, io).Balances() && Accounted(ResumeStep(s, r, io), opening, u)
  {
    hide Sums.Sum;
    match s.frames[r]
    case PayoutAtReserve(user, amount, iban) => ReserveKeepsAccount(s, opening, r, user, amount, iban, u);
    case PayoutAtCheck(user, amount, row) => CheckKeepsAccount(s, opening, r, user, amount, row, u);
    case PayoutAtRestore(user, amount, row) => RestoreKeepsAccount(s, opening, r, user, amount, row, u);
  }

  lemma ResumeKeepsAccount(s: State, opening: map<UserId, int>, r: RowId, io: Io, u: UserId)
    requires r < |s.frames| && FrameOk(s, s.frames[r])
    requires u in s.Balances() && Accounted(s, opening, u)
    requires InFlight(s, u) >= 0 && InFlight(ResumeStep(s, r, io), u) >= 0
    ensures u in ResumeStep(s, r, io).Balances() && Accounted(ResumeStep(s, r, io), opening, u)
  {
    hide Sums.Sum;
    var f := s.frames[r];
    if f.VerifyAtFail? || f.VerifyAtClaim? || f.VerifyAtApply? || f.RefundAtTransaction? {
      PaymentStepsKeepAccount(s, opening, r, io, u);
    } else if f.PayoutAtReserve? || f.PayoutAtCheck? || f.PayoutAtRestore? {
      PayoutStepsKeepAccount(s, opening, r, io, u);
    } else if !f.Done? {
      ReadsKeepAccount(s, opening, r, io, u);
    }
  }

  lemma SameUsers(s: State, r: RowId, io: Io)
    requires r < |s.frames|
    ensures ResumeStep(s, r, io).Balances().Keys == s.Balances().Keys
  {
  }

  lemma SamePayments(s: State, r: RowId, io: Io)
    requires r < |s.frames|
    ensures |ResumeStep(s, r, io).payments| == |s.payments|
  {
  }

  /** The log of effects grows only by the payment of a request that owned its effect. */
  lemma AppliedGrows(s: State, r: RowId, io: Io)
    requires r < |s.frames|
    ensures ResumeStep(s, r, io).applied
         == if s.frames[r].VerifyAtApply? then s.applied + [s.frames[r].pay] else s.applied
  {
  }

  /** Every step of every request keeps the invariant. */
  lemma {:induction false} ResumeKeepsInv(s: State, opening: map<UserId, int>, r: RowId, io: Io)
    requires Inv(s, opening) && r < |s.frames|
    ensures Inv(ResumeStep(s, r, io), opening)
  {
    hide Sums.Sum;
    hide AdBilling.Sound;
    var t := ResumeStep(s, r, io);
    ResumeKeepsRows(s, r, io);
    SameUsers(s, r, io);
    SamePayments(s, r, io);
    AppliedGrows(s, r, io);
    assert FrameOk(s, s.frames[r]);
    forall p: RowId | p < |t.payments| ensures Once(t, p) {
      ResumeKeepsOnce(s, r, io, p);
    }
    forall u | u in t.Balances() ensures Accounted(t, opening, u) {
      InFlightNonNegative(s, u);
      InFlightNonNegative(t, u);
      ResumeKeepsAccount(s, opening, r, io, u);
    }
  }

  // ---------------------------------------------------------------- arrivals and one-step requests

  /** A new request that owns no effect and no reserved money changes nothing that is counted. */
  lemma SuspendKeepsInv(s: State, opening: map<UserId, int>, f: Frame)
    requires Inv(s, opening) && FrameOk(s, f) && !HoldsReserve(f) && !f.VerifyAtApply?
    ensures Inv(Suspend(s, f), opening)
  {
    hide Sums.Sum;
    hide AdBilling.Sound;
    var t := Suspend(s, f);
    forall i | 0 <= i < |t.frames| ensures FrameOk(t, t.frames[i]) {
      if i < |s.frames| {
        assert FrameOk(s, s.frames[i]);
      }
    }
    forall p: RowId | p < |t.payments| ensures Once(t, p) {
      assert Once(s, p);
      SumAppend(s.frames, f, Applying(p));
    }
    forall u | u in t.Balances() ensures Accounted(t, opening, u) {
      assert Accounted(s, opening, u);
      SumAppend(s.frames, f, Reserved(u));
      SumAppend(s.frames, f, Uncredited(u));
    }
  }

  lemma NewPaymentOnce(s: State, row: Payment)
    requires Rows(s) && (forall i :: 0 <= i < |s.applied| ==> s.applied[i] < |s.payments|)
    requires row.status == Pending
    ensures Once(s.(payments := s.payments + [row]), |s.payments|)
  {
    hide Sums.Sum;
    hide AdBilling.Sound;
    var n := |s.payments|;
    forall i | 0 <= i < |s.frames| ensures Applying(n)(s.frames[i]) == 0 {
      assert FrameOk(s, s.frames[i]);
    }
    SumZero(s.frames, Applying(n));
    SumZero(s.applied, AppliedTo(n));
  }

  lemma NewPaymentKeepsRows(s: State, row: Payment)
    requires Rows(s) && PaymentOk(s, row)
    ensures Rows(s.(payments := s.payments + [row]))
  {
    hide AdBilling.Sound;
    var t := s.(payments := s.payments + [row]);
    forall i | 0 <= i < |t.frames| ensures FrameOk(t, t.frames[i]) {
      assert FrameOk(s, s.frames[i]);
    }
    forall p | 0 <= p < |t.payments| ensures PaymentOk(t, t.payments[p]) {
      if p < |s.payments| {
        assert PaymentOk(s, s.payments[p]);
      }
    }
  }

  lemma {:induction false} InitiateKeepsInv(s: State, opening: map<UserId, int>, row: Payment)
    requires Inv(s, opening) && PaymentOk(s, row) && row.status == Pending
    ensures Inv(s.(payments := s.payments + [row]), opening)
  {
    hide Sums.Sum;
    hide AdBilling.Sound;
    var t := s.(payments := s.payments + [row]);
    NewPaymentKeepsRows(s, row);
    NewPaymentOnce(s, row);
    forall p: RowId | p < |t.payments| ensures Once(t, p) {
      if p < |s.payments| {
        assert Once(s, p);
      }
    }
    forall u | u in t.Balances() ensures Accounted(t, opening, u) {
      assert Accounted(s, opening, u);
      SumAppend(s.payments, row, ToppedUp(u));
    }
  }

  /** Rejecting or paying a payout never touches the wallet, so the ledger counts the row in every status. */
  lemma {:induction false} PayoutStatusKeepsInv(s: State, opening: map<UserId, int>, row: RowId, status: PayoutStatus)
    requires Inv(s, opening)
    ensures Inv(WithPayoutStatus(s, row, status), opening)
    ensures WithPayoutStatus(s, row, status).Balances() == s.Balances()
  {
    hide Sums.Sum;
    hide AdBilling.Sound;
    var t := WithPayoutStatus(s, row, status);
    forall i | 0 <= i < |t.frames| ensures FrameOk(t, t.frames[i]) {
      assert FrameOk(s, s.frames[i]);
    }
    forall p: RowId | p < |t.payments| ensures Once(t, p) {
      assert Once(s, p);
    }
    forall u | u in t.Balances() ensures Accounted(t, opening, u) {
      assert Accounted(s, opening, u);
      PayoutStatusMovesNothing(s, row, status, u);
    }
  }

  lemma BooksKeepRows(s: State, t: State)
    requires Rows(s) && Sound(t.desk.books) && t.Balances().Keys == s.Balances().Keys
    requires t.payments == s.payments && t.frames == s.frames && t.payouts == s.payouts
    ensures Rows(t)
  {
    hide AdBilling.Sound;
    forall i | 0 <= i < |t.frames| ensures FrameOk(t, t.frames[i]) {
      assert FrameOk(s, s.frames[i]);
    }
    forall p | 0 <= p < |t.payments| ensures PaymentOk(t, t.payments[p]) {
      assert PaymentOk(s, s.payments[p]);
    }
  }

  /** An admin credit, or a debit guarded by the balance. */
  lemma AdjustKeepsInv(s: State, opening: map<UserId, int>, user: UserId, delta: int)
    requires Inv(s, opening) && user in s.Balances() && s.Balances()[user] + delta >= (if delta < 0 then 0 else s.Balances()[user])
    ensures Inv(s.Add(user, delta).(audit := s.audit + [WalletOp(user, delta)]), opening)
  {
    hide Sums.Sum;
    hide AdBilling.Sound;
    var t := s.Add(user, delta).(audit := s.audit + [WalletOp(user, delta)]);
    BalanceKeepsSound(s.desk.books, t.Balances());
    BooksKeepRows(s, t);
    forall p: RowId | p < |t.payments| ensures Once(t, p) {
      assert Once(s, p);
    }
    forall u | u in t.Balances() ensures Accounted(t, opening, u) {
      assert Accounted(s, opening, u);
      InFlightNonNegative(s, u);
      SumAppend(s.audit, WalletOp(user, delta), Adjusted(u));
    }
  }

  lemma AdsKeepInv(s: State, opening: map<UserId, int>, a: Action)
    requires Inv(s, opening)
    ensures Inv(s.(desk := Act(s.desk, a)), opening)
  {
    hide Sums.Sum;
    hide AdBilling.Sound;
    var t := s.(desk := Act(s.desk, a));
    ActKeepsSound(s.desk, a);
    AdsKeepUsers(s.desk, a);
    BooksKeepRows(s, t);
    forall p: RowId | p < |t.payments| ensures Once(t, p) {
      assert Once(s, p);
    }
    forall u | u in t.Balances() ensures Accounted(t, opening, u) {
      assert Accounted(s, opening, u);
      InFlightNonNegative(s, u);
      ActConservesWallet(s.desk, a, u);
    }
  }

  lemma AdsKeepUsers(d: Desk, a: Action)
    requires Sound(d.books)
    ensures Act(d, a).books.balance.Keys == d.books.balance.Keys
  {
    hide AdBilling.Sound;
  }

  lemma {:induction false} InitiateEventKeepsInv(s: State, opening: map<UserId, int>, u: UserId, input: InitiateInput, authority: string)
    requires Inv(s, opening)
    ensures Inv(Next(s, Initiate(u, input, authority)), opening)
  {
    hide Sums.Sum;
    hide AdBilling.Sound;
    var price := PriceOf(u, input);
    if price.Some? && u in s.Balances() {
      InitiateKeepsInv(s, opening, Payment(u, price.value, input.purpose,
        if input.post.Some? then Some(input.post.value.id) else None, input.plan, authority, Pending, None));
    }
  }

  lemma {:induction false} StartVerifyKeepsInv(s: State, opening: map<UserId, int>, authority: string, ok: bool, found: RowId)
    requires Inv(s, opening)
    ensures Inv(Next(s, StartVerify(authority, ok, found)), opening)
  {
    hide Sums.Sum;
    hide AdBilling.Sound;
    if found < |s.payments| && s.payments[found].authority == authority {
      assert PaymentOk(s, s.payments[found]);
      SuspendKeepsInv(s, opening, VerifyEntry(s, ok, found));
    }
  }

  lemma {:induction false} StartRefundKeepsInv(s: State, opening: map<UserId, int>, pay: RowId)
    requires Inv(s, opening)
    ensures Inv(Next(s, StartRefund(pay)), opening)
  {
    hide Sums.Sum;
    hide AdBilling.Sound;
    if pay < |s.payments| {
      assert PaymentOk(s, s.payments[pay]);
    }
    SuspendKeepsInv(s, opening, RefundEntry(s, pay));
  }

  lemma AdminEventKeepsInv(s: State, opening: map<UserId, int>, e: Event)
    requires Inv(s, opening) && (e.AdminCredit? || e.AdminDebit?)
    ensures Inv(Next(s, e), opening)
  {
    hide Sums.Sum;
    hide AdBilling.Sound;
    var delta := if e.AdminCredit? then e.amount else -e.amount;
    if Next(s, e) != s {
      AdjustKeepsInv(s, opening, e.user, delta);
    }
  }

  /** Every event of every interleaving keeps the invariant. */
  lemma {:induction false} NextKeepsInv(s: State, opening: map<UserId, int>, e: Event)
    requires Inv(s, opening)
    ensures Inv(Next(s, e), opening)
  {
    hide Sums.Sum;
    hide AdBilling.Sound;
    match e {
      case Initiate(u, input, authority) => InitiateEventKeepsInv(s, opening, u, input, authority);
      case StartVerify(authority, ok, found) => StartVerifyKeepsInv(s, opening, authority, ok, found);
      case StartPayout(u, amount, iban) => SuspendKeepsInv(s, opening, PayoutEntry(u, amount, iban));
      case StartRefund(pay) => StartRefundKeepsInv(s, opening, pay);
      case StartApprove(row) => SuspendKeepsInv(s, opening, ApproveEntry(s, row));
      case RejectPayout(row) => PayoutStatusKeepsInv(s, opening, row, PayoutRejected);
      case MarkPaid(row) => PayoutStatusKeepsInv(s, opening, row, PayoutPaid);
      case Ads(a) => AdsKeepInv(s, opening, a);
      case Resume(r, io) => if r < |s.frames| { ResumeKeepsInv(s, opening, r, io); }
      case AdminCredit(_, _) => AdminEventKeepsInv(s, opening, e);
      case AdminDebit(_, _) => AdminEventKeepsInv(s, opening, e);
    }
  }

  lemma NoRowsNoSums(opening: map<UserId, int>, u: UserId)
    ensures var s := Opened(opening);
      && Sum(s.payments, ToppedUp(u)) == Sum(s.frames, Uncredited(u)) == Sum(s.audit, Adjusted(u)) == Sum(s.payouts, Withdrawn(u)) == 0
      && AdSpend(s.desk.books, u) == InFlight(s, u) == 0
  {
  }

  lemma OpenedRows(opening: map<UserId, int>)
    ensures Rows(Opened(opening))
  {
    hide Sums.Sum;
    assert Sound(Opened(opening).desk.books) by {
      hide AdBilling.LedgersAgree;
    }
    hide AdBilling.Sound;
  }

  lemma OpenedInv(opening: map<UserId, int>)
    requires forall u :: u in opening ==> opening[u] >= 0
    ensures Inv(Opened(opening), opening)
  {
    hide Sums.Sum;
    hide Rows;
    hide Once;
    hide AdSpend;
    hide InFlight;
    OpenedRows(opening);
    forall u | u in opening ensures Accounted(Opened(opening), opening, u) {
      NoRowsNoSums(opening, u);
    }
    hide Accounted;
  }

  lemma {:induction false} ExecKeepsInv(s: State, opening: map<UserId, int>, run: seq<Event>)
    requires Inv(s, opening)
    ensures Inv(Exec(s, run), opening)
  {
    if run != [] {
      ExecKeepsInv(s, opening, run[..|run| - 1]);
      NextKeepsInv(Exec(s, run[..|run| - 1]), opening, run[|run| - 1]);
    }
  }
}
