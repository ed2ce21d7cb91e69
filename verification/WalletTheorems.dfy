/** The wallet theorems: statements about every run from any non-negative opening balances. */
module WalletTheorems {
  import opened Optional
  import opened Sums
  import opened AdBilling
  import opened Wallet
  import opened WalletSafety

  ghost predicate Funded(opening: map<UserId, int>) { forall u :: u in opening ==> opening[u] >= 0 }

  ghost predicate NothingInFlight(s: State, u: UserId) {
    forall i :: 0 <= i < |s.frames| && HoldsReserve(s.frames[i]) ==> s.frames[i].user != u
  }

  ghost predicate NoEffectOwed(s: State, p: RowId) {
    forall i :: 0 <= i < |s.frames| && s.frames[i].VerifyAtApply? ==> s.frames[i].pay != p
  }

  lemma {:induction false} RunInv(opening: map<UserId, int>, run: seq<Event>)
    requires Funded(opening)
    ensures Inv(Exec(Opened(opening), run), opening)
  {
    OpenedInv(opening);
    ExecKeepsInv(Opened(opening), opening, run);
  }

  // ---------------------------------------------------------------- solvency and conservation

  /**
   * In every interleaving a balance can fall below zero only by money of that user's own
   * payouts that still await their balance check.
   */
  lemma {:induction false} NeverOverdrawn(opening: map<UserId, int>, run: seq<Event>, u: UserId)
    requires Funded(opening) && u in opening
    ensures var s := Exec(Opened(opening), run);
      u in s.Balances() && s.Balances()[u] + InFlight(s, u) >= 0
  {
    RunInv(opening, run);
    assert Accounted(Exec(Opened(opening), run), opening, u);
  }

  /** With none of those in flight the balance is not negative. */
  lemma {:induction false} SettledBalanceIsCovered(opening: map<UserId, int>, run: seq<Event>, u: UserId)
    requires Funded(opening) && u in opening && NothingInFlight(Exec(Opened(opening), run), u)
    ensures var s := Exec(Opened(opening), run);
      u in s.Balances() && s.Balances()[u] >= 0
  {
    var s := Exec(Opened(opening), run);
    NeverOverdrawn(opening, run, u);
    SumZero(s.frames, Reserved(u));
  }

  /** At every reachable state the balance is exactly what the ledger rows explain. */
  lemma {:induction false} BalanceIsExplained(opening: map<UserId, int>, run: seq<Event>, u: UserId)
    requires Funded(opening) && u in opening
    ensures var s := Exec(Opened(opening), run);
      && u in s.Balances()
      && s.Balances()[u] == opening[u] + Sum(s.payments, ToppedUp(u)) - Sum(s.frames, Uncredited(u))
                          + Sum(s.audit, Adjusted(u)) - Sum(s.payouts, Withdrawn(u)) - AdSpend(s.desk.books, u)
  {
    RunInv(opening, run);
    assert Accounted(Exec(Opened(opening), run), opening, u);
  }

  /** Nobody spends money that did not come in: settled withdrawals and ads are covered by what was paid in. */
  lemma {:induction false} SpendingIsCovered(opening: map<UserId, int>, run: seq<Event>, u: UserId)
    requires Funded(opening) && u in opening
    requires NothingInFlight(Exec(Opened(opening), run), u)
    ensures var s := Exec(Opened(opening), run);
      Sum(s.payouts, Withdrawn(u)) + AdSpend(s.desk.books, u)
      <= opening[u] + Sum(s.payments, ToppedUp(u)) + Sum(s.audit, Adjusted(u))
  {
    var s := Exec(Opened(opening), run);
    SettledBalanceIsCovered(opening, run, u);
    BalanceIsExplained(opening, run, u);
    RunInv(opening, run);
    forall i | 0 <= i < |s.frames| ensures Uncredited(u)(s.frames[i]) >= 0 {
      assert FrameOk(s, s.frames[i]);
    }
    SumNonNegative(s.frames, Uncredited(u));
  }

  /** The in-flight term is needed: a payout above the balance does drive it below zero for a moment. */
  lemma {:induction false} BalanceCanDip()
    ensures var run := [StartPayout("u", 50_000, "IR"), Resume(0, Io(NotVerified, 0)), Resume(0, Io(NotVerified, 0))];
      Exec(Opened(map["u" := 10_000]), run).Balances() == map["u" := -40_000]
  {
    var io := Io(NotVerified, 0);
    var s0 := Opened(map["u" := 10_000]);
    var run := [StartPayout("u", 50_000, "IR"), Resume(0, io), Resume(0, io)];
    var s1 := Next(s0, run[0]);
    var s2 := Next(s1, run[1]);
    var s3 := Next(s2, run[2]);
    ThreeSteps(s0, run);
    assert s1.frames == [PayoutAtCount("u", 50_000, "IR")];
    assert s2.frames == [PayoutAtReserve("u", 50_000, "IR")];
    assert s3.Balances() == map["u" := -40_000];
  }

  lemma ThreeSteps(s: State, run: seq<Event>)
    requires |run| == 3
    ensures Exec(s, run) == Next(Next(Next(s, run[0]), run[1]), run[2])
  {
    assert run[..2][..1] == run[..1] && run[..1][..0] == [];
    assert Exec(s, run[..1]) == Next(Exec(s, []), run[0]);
    assert Exec(s, run[..2]) == Next(Exec(s, run[..1]), run[1]);
  }

  // ---------------------------------------------------------------- callbacks

  /**
   * However many callbacks of one payment run and replay, its effect runs at most once; once no
   * request owes it, it has run exactly when the payment is successful or refunded.
   */
  lemma {:induction false} EffectRunsOnce(opening: map<UserId, int>, run: seq<Event>, p: RowId)
    requires Funded(opening) && p < |Exec(Opened(opening), run).payments|
    ensures var s := Exec(Opened(opening), run);
      && TimesApplied(s, p) <= 1
      && (NoEffectOwed(s, p) ==> (TimesApplied(s, p) == 1 <==> s.payments[p].status in {Success, Refunded}))
  {
    RunInv(opening, run);
    var s := Exec(Opened(opening), run);
    assert Once(s, p);
    SumNonNegative(s.frames, Applying(p));
    SumNonNegative(s.applied, AppliedTo(p));
    if NoEffectOwed(s, p) {
      SumZero(s.frames, Applying(p));
    }
  }

  predicate StatusEdge(a: PaymentStatus, b: PaymentStatus) {
    a == b || (a == Pending && b in {Failed, Success}) || (a == Success && b == Refunded)
  }

  predicate StatusPath(a: PaymentStatus, b: PaymentStatus) {
    a == b || a == Pending || (a == Success && b == Refunded)
  }

  /** One event moves a payment along pending-failed, pending-success or success-refunded, and keeps its terms. */
  lemma {:induction false} StatusMovesForward(s: State, e: Event, p: RowId)
    requires p < |s.payments|
    ensures p < |Next(s, e).payments|
    ensures StatusEdge(s.payments[p].status, Next(s, e).payments[p].status)
    ensures SameTerms(s.payments[p], Next(s, e).payments[p])
  {
    if e.Resume? && e.frame < |s.frames| {
      ResumeMovesForward(s, e.frame, e.io, p);
    }
  }

  lemma FailMovesForward(s: State, r: RowId, pay: RowId, reply: Reply, p: RowId)
    requires p < |s.payments| && r < |s.frames|
    ensures var t := FailStep(s, r, pay, reply);
      |t.payments| == |s.payments| && StatusEdge(s.payments[p].status, t.payments[p].status) && SameTerms(s.payments[p], t.payments[p])
  {
  }

  lemma ClaimMovesForward(s: State, r: RowId, pay: RowId, snap: Payment, ref: Option<string>, p: RowId)
    requires p < |s.payments| && r < |s.frames|
    ensures var t := ClaimStep(s, r, pay, snap, ref);
      |t.payments| == |s.payments| && StatusEdge(s.payments[p].status, t.payments[p].status) && SameTerms(s.payments[p], t.payments[p])
  {
  }

  lemma RefundMovesForward(s: State, r: RowId, pay: RowId, snap: Payment, p: RowId)
    requires p < |s.payments| && r < |s.frames|
    ensures var t := RefundStep(s, r, pay, snap);
      |t.payments| == |s.payments| && StatusEdge(s.payments[p].status, t.payments[p].status) && SameTerms(s.payments[p], t.payments[p])
  {
  }

  lemma OtherStepsKeepPayments(s: State, r: RowId, io: Io)
    requires r < |s.frames|
    requires var f := s.frames[r]; !f.VerifyAtFail? && !f.VerifyAtClaim? && !f.RefundAtTransaction?
    ensures ResumeStep(s, r, io).payments == s.payments
  {
  }

  lemma {:induction false} ResumeMovesForward(s: State, r: RowId, io: Io, p: RowId)
    requires p < |s.payments| && r < |s.frames|
    ensures p < |ResumeStep(s, r, io).payments|
    ensures StatusEdge(s.payments[p].status, ResumeStep(s, r, io).payments[p].status)
    ensures SameTerms(s.payments[p], ResumeStep(s, r, io).payments[p])
  {
    match s.frames[r]
    case VerifyAtFail(pay, reply) => FailMovesForward(s, r, pay, reply, p);
    case VerifyAtClaim(pay, snap, ref) => ClaimMovesForward(s, r, pay, snap, ref, p);
    case RefundAtTransaction(pay, snap) => RefundMovesForward(s, r, pay, snap, p);
    case _ => OtherStepsKeepPayments(s, r, io);
  }

  lemma {:induction false} StatusNeverReturns(s: State, run: seq<Event>, p: RowId)
    requires p < |s.payments|
    ensures var t := Exec(s, run);
      p < |t.payments| && StatusPath(s.payments[p].status, t.payments[p].status) && SameTerms(s.payments[p], t.payments[p])
  {
    if run != [] {
      var most := run[..|run| - 1];
      StatusNeverReturns(s, most, p);
      StatusMovesForward(Exec(s, most), run[|run| - 1], p);
    }
  }

  // ---------------------------------------------------------------- every request finishes

  /** How many more times a request is resumed before it is done. */
  function Rank(f: Frame): nat {
    match f
    case VerifyAtGateway(_, _) => 3
    case VerifyAtClaim(_, _, _) => 2
    case VerifyAtFail(_, _) => 1
    case VerifyAtReread(_) => 1
    case VerifyAtApply(_, _) => 1
    case PayoutAtCount(_, _, _) => 4
    case PayoutAtReserve(_, _, _) => 3
    case PayoutAtCheck(_, _, _) => 2
    case PayoutAtRestore(_, _, _) => 1
    case RefundAtTransaction(_, _) => 1
    case ApproveAtWrite(_) => 1
    case Done(_) => 0
  }

  /** One frame of the table was rewritten, and it came nearer to the end. */
  ghost predicate Advances(frames: seq<Frame>, r: RowId, after: seq<Frame>) {
    r < |frames| == |after| && after == frames[r := after[r]] && Rank(after[r]) < Rank(frames[r])
  }

  lemma VerifyAdvances(s: State, r: RowId, io: Io)
    requires r < |s.frames|
    requires var f := s.frames[r]; f.VerifyAtGateway? || f.VerifyAtFail? || f.VerifyAtClaim? || f.VerifyAtReread?
    ensures Advances(s.frames, r, ResumeStep(s, r, io).frames)
  {
  }

  lemma ApplyAdvances(s: State, r: RowId, pay: RowId, snap: Payment, now: int)
    requires r < |s.frames| && s.frames[r] == VerifyAtApply(pay, snap)
    ensures Advances(s.frames, r, ApplyStep(s, r, pay, snap, now).frames)
  {
  }

  lemma RefundFrames(s: State, r: RowId, pay: RowId, snap: Payment)
    requires r < |s.frames|
    ensures |RefundStep(s, r, pay, snap).frames| == |s.frames|
    ensures RefundStep(s, r, pay, snap).frames == s.frames[r := RefundStep(s, r, pay, snap).frames[r]]
    ensures RefundStep(s, r, pay, snap).frames[r].Done?
  {
  }

  lemma RefundAdvances(s: State, r: RowId, pay: RowId, snap: Payment)
    requires r < |s.frames| && s.frames[r] == RefundAtTransaction(pay, snap)
    ensures Advances(s.frames, r, RefundStep(s, r, pay, snap).frames)
  {
    RefundFrames(s, r, pay, snap);
    hide Wallet.RefundStep;
  }

  lemma ApproveAdvances(s: State, r: RowId, io: Io)
    requires r < |s.frames| && s.frames[r].ApproveAtWrite?
    ensures Advances(s.frames, r, ResumeStep(s, r, io).frames)
  {
  }

  lemma PayoutAdvances(s: State, r: RowId, io: Io)
    requires r < |s.frames|
    requires var f := s.frames[r]; f.PayoutAtCount? || f.PayoutAtReserve? || f.PayoutAtCheck? || f.PayoutAtRestore?
    ensures Advances(s.frames, r, ResumeStep(s, r, io).frames)
  {
  }

  /** A resumption brings its own request nearer to the end and leaves every other request where it was. */
  lemma {:induction false} ResumeLowersRank(s: State, r: RowId, io: Io)
    requires r < |s.frames|
    ensures |ResumeStep(s, r, io).frames| == |s.frames|
    ensures s.frames[r].Done? || Rank(ResumeStep(s, r, io).frames[r]) < Rank(s.frames[r])
    ensures s.frames[r].Done? ==> ResumeStep(s, r, io) == s
    ensures forall i :: 0 <= i < |s.frames| && i != r ==> ResumeStep(s, r, io).frames[i] == s.frames[i]
  {
    match s.frames[r]
    case Done(_) =>
    case VerifyAtGateway(_, _) => VerifyAdvances(s, r, io);
    case VerifyAtFail(_, _) => VerifyAdvances(s, r, io);
    case VerifyAtClaim(_, _, _) => VerifyAdvances(s, r, io);
    case VerifyAtReread(_) => VerifyAdvances(s, r, io);
    case VerifyAtApply(pay, snap) => ApplyAdvances(s, r, pay, snap, io.now);
    case RefundAtTransaction(pay, snap) => RefundAdvances(s, r, pay, snap);
    case ApproveAtWrite(_) => ApproveAdvances(s, r, io);
    case _ => PayoutAdvances(s, r, io);
  }

  /** Resume request `r` four times in a row. */
  function Finish(r: RowId, io: Io): seq<Event> { [Resume(r, io), Resume(r, io), Resume(r, io), Resume(r, io)] }

  lemma FourSteps(s: State, r: RowId, io: Io)
    requires r < |s.frames|
    ensures var t := Exec(s, Finish(r, io));
      && |t.frames| == |s.frames| && t.frames[r].Done?
      && forall i :: 0 <= i < |s.frames| && i != r ==> t.frames[i] == s.frames[i]
  {
    var e := Resume(r, io);
    var run := Finish(r, io);
    assert run[..3] == [e, e, e];
    ThreeSteps(s, [e, e, e]);
    var s1 := Next(s, e);
    var s2 := Next(s1, e);
    var s3 := Next(s2, e);
    ResumeLowersRank(s, r, io);
    ResumeLowersRank(s1, r, io);
    ResumeLowersRank(s2, r, io);
    ResumeLowersRank(s3, r, io);
  }

  /** Nothing but resumptions, in any order and with any answers. */
  predicate OnlyResumes(rest: seq<Event>) { forall k :: 0 <= k < |rest| ==> rest[k].Resume? }

  /** How often request `i` is resumed. */
  function Resumptions(rest: seq<Event>, i: RowId): nat {
    if rest == [] then 0
    else
      var last := rest[|rest| - 1];
      Resumptions(rest[..|rest| - 1], i) + if last.Resume? && last.frame == i then 1 else 0
  }

  /** Each resumption brings its request one step nearer to the end, whatever runs between. */
  lemma {:induction false} RankFalls(s: State, rest: seq<Event>, i: RowId)
    requires OnlyResumes(rest) && i < |s.frames|
    ensures var t := Exec(s, rest);
      |t.frames| == |s.frames| && (t.frames[i].Done? || Rank(t.frames[i]) + Resumptions(rest, i) <= Rank(s.frames[i]))
  {
    if rest != [] {
      hide Wallet.ResumeStep;
      hide Rank;
      var most, last := rest[..|rest| - 1], rest[|rest| - 1];
      RankFalls(s, most, i);
      assert last.Resume?;
      if last.frame < |s.frames| {
        ResumeLowersRank(Exec(s, most), last.frame, last.io);
      }
    }
  }

  lemma FourAreEnough(s: State, rest: seq<Event>, i: RowId)
    requires OnlyResumes(rest) && i < |s.frames| && Resumptions(rest, i) >= 4
    ensures |Exec(s, rest).frames| == |s.frames| && Exec(s, rest).frames[i].Done?
  {
    hide Wallet.Exec;
    RankFalls(s, rest, i);
  }

  /**
   * Recovery: after any run, any continuation that resumes each open request four times, in any
   * order and each time with an answer of its own, ends with every request done, no balance
   * below zero, and every payment's effect applied exactly when it is paid.
   */
  lemma {:induction false} EveryRunRecovers(opening: map<UserId, int>, run: seq<Event>, rest: seq<Event>)
    requires Funded(opening) && OnlyResumes(rest)
    requires forall i: RowId :: i < |Exec(Opened(opening), run).frames| ==> Resumptions(rest, i) >= 4
    ensures var t := Exec(Opened(opening), run + rest);
      && AllDone(t)
      && t.Balances().Keys == opening.Keys
      && (forall u :: u in t.Balances() ==> t.Balances()[u] >= 0)
      && (forall p: RowId :: p < |t.payments| ==>
            TimesApplied(t, p) == if t.payments[p].status in {Success, Refunded} then 1 else 0)
  {
    hide Wallet.Next;
    hide Wallet.Exec;
    hide Resumptions;
    var s := Exec(Opened(opening), run);
    var t := Exec(Opened(opening), run + rest);
    ExecConcat(Opened(opening), run, rest);
    SameFrames(s, rest);
    forall i: RowId | i < |t.frames| ensures t.frames[i].Done? {
      FourAreEnough(s, rest, i);
    }
    RunInv(opening, run + rest);
    AllSettled(opening, run + rest);
  }

  lemma {:induction false} SameFrames(s: State, rest: seq<Event>)
    requires OnlyResumes(rest)
    ensures |Exec(s, rest).frames| == |s.frames|
  {
    if rest != [] {
      hide Wallet.ResumeStep;
      var most, last := rest[..|rest| - 1], rest[|rest| - 1];
      SameFrames(s, most);
      assert last.Resume?;
      if last.frame < |s.frames| {
        ResumeLowersRank(Exec(s, most), last.frame, last.io);
      }
    }
  }

  ghost predicate AllDone(s: State) { forall i :: 0 <= i < |s.frames| ==> s.frames[i].Done? }

  /** With every request done, the balances are covered and the effects match the statuses. */
  lemma {:induction false} AllSettled(opening: map<UserId, int>, run: seq<Event>)
    requires Funded(opening)
    requires AllDone(Exec(Opened(opening), run))
    ensures var t := Exec(Opened(opening), run);
      && t.Balances().Keys == opening.Keys
      && (forall u :: u in t.Balances() ==> t.Balances()[u] >= 0)
      && (forall p: RowId :: p < |t.payments| ==>
            TimesApplied(t, p) == if t.payments[p].status in {Success, Refunded} then 1 else 0)
  {
    hide Wallet.Exec;
    hide WalletSafety.Once;
    RunInv(opening, run);
    var t := Exec(Opened(opening), run);
    forall u | u in t.Balances() ensures t.Balances()[u] >= 0 {
      SettledBalanceIsCovered(opening, run, u);
    }
    forall p: RowId | p < |t.payments|
      ensures TimesApplied(t, p) == if t.payments[p].status in {Success, Refunded} then 1 else 0
    {
      assert Once(t, p);
      AppliedWhenDone(t, p);
    }
  }

  lemma AppliedWhenDone(t: State, p: RowId)
    requires p < |t.payments| && Once(t, p) && AllDone(t)
    ensures TimesApplied(t, p) == if t.payments[p].status in {Success, Refunded} then 1 else 0
  {
    forall i | 0 <= i < |t.frames| ensures Applying(p)(t.frames[i]) == 0 {
      assert t.frames[i].Done?;
    }
    SumZero(t.frames, Applying(p));
  }

  // ---------------------------------------------------------------- one open payout per user

  /** The promise behind the refusal "a withdrawal is under review": a user has at most one open payout. */
  ghost predicate OneOpenPayout(s: State) {
    forall i, j :: 0 <= i < j < |s.payouts| && IsOpen(s.payouts[i]) && IsOpen(s.payouts[j])
      ==> s.payouts[i].value.user != s.payouts[j].value.user
  }

  /** A payout row is about to be opened, by its creation or by a late approval, while another is open. */
  predicate OpensSecond(s: State, e: Event) {
    e.Resume? && e.frame < |s.frames| &&
    match s.frames[e.frame]
    case PayoutAtReserve(user, _, _) => user in s.Balances() && HasOpenPayout(s, user)
    case ApproveAtWrite(row) =>
      row < |s.payouts| && s.payouts[row].Some? && !IsOpen(s.payouts[row]) && HasOpenPayout(s, s.payouts[row].value.user)
    case _ => false
  }

  /** Opening a row, new or old, while another of that user is open breaks the promise. */
  lemma OpeningBreaks(s: State, t: State, user: UserId, j: RowId)
    requires HasOpenPayout(s, user) && |s.payouts| <= |t.payouts| && j < |t.payouts|
    requires j < |s.payouts| ==> !IsOpen(s.payouts[j])
    requires forall i :: 0 <= i < |s.payouts| && i != j ==> t.payouts[i] == s.payouts[i]
    requires IsOpen(t.payouts[j]) && t.payouts[j].value.user == user
    ensures !OneOpenPayout(t)
  {
    var i :| 0 <= i < |s.payouts| && IsOpen(s.payouts[i]) && s.payouts[i].value.user == user;
    assert IsOpen(t.payouts[i]) && i != j;
  }

  lemma ReserveOpens(s: State, r: RowId, user: UserId, amount: int, iban: string)
    requires OneOpenPayout(s) && r < |s.frames|
    ensures OneOpenPayout(ReserveStep(s, r, user, amount, iban)) <==> !(user in s.Balances() && HasOpenPayout(s, user))
  {
    var t := ReserveStep(s, r, user, amount, iban);
    if user in s.Balances() && HasOpenPayout(s, user) {
      OpeningBreaks(s, t, user, |s.payouts|);
    } else {
      assert user in s.Balances() ==> forall i :: 0 <= i < |s.payouts| && IsOpen(s.payouts[i]) ==> s.payouts[i].value.user != user;
    }
  }

  lemma ApproveOpens(s: State, row: RowId)
    requires OneOpenPayout(s)
    ensures OneOpenPayout(WithPayoutStatus(s, row, PayoutApproved)) <==>
      !(row < |s.payouts| && s.payouts[row].Some? && !IsOpen(s.payouts[row]) && HasOpenPayout(s, s.payouts[row].value.user))
  {
    if row < |s.payouts| && s.payouts[row].Some? && !IsOpen(s.payouts[row]) {
      var user := s.payouts[row].value.user;
      var t := WithPayoutStatus(s, row, PayoutApproved);
      if HasOpenPayout(s, user) {
        OpeningBreaks(s, t, user, row);
      } else {
        assert forall i :: 0 <= i < |s.payouts| && IsOpen(s.payouts[i]) ==> s.payouts[i].value.user != user;
      }
    }
  }

  lemma ReserveOrApprove(s: State, r: RowId, io: Io)
    requires r < |s.frames|
    ensures s.frames[r].PayoutAtReserve? ==> var f := s.frames[r]; ResumeStep(s, r, io) == ReserveStep(s, r, f.user, f.amount, f.iban)
    ensures s.frames[r].ApproveAtWrite? ==> ResumeStep(s, r, io).payouts == WithPayoutStatus(s, s.frames[r].row, PayoutApproved).payouts
  {
  }

  lemma StepOpensSecond(s: State, e: Event)
    requires OneOpenPayout(s)
    ensures OneOpenPayout(Next(s, e)) <==> !OpensSecond(s, e)
  {
    if e.Resume? && e.frame < |s.frames| && s.frames[e.frame].PayoutAtReserve? {
      hide Wallet.ResumeStep;
      hide Wallet.ReserveStep;
      hide OneOpenPayout;
      var f := s.frames[e.frame];
      ReserveOrApprove(s, e.frame, e.io);
      ReserveOpens(s, e.frame, f.user, f.amount, f.iban);
    } else if e.Resume? && e.frame < |s.frames| && s.frames[e.frame].ApproveAtWrite? {
      hide Wallet.ResumeStep;
      hide Wallet.WithPayoutStatus;
      ReserveOrApprove(s, e.frame, e.io);
      ApproveOpens(s, s.frames[e.frame].row);
    } else {
      hide Wallet.Next;
      ClosedStaysClosed(s, e);
    }
  }

  /** No payout row was opened, and none changed hands. */
  ghost predicate OnlyCloses(before: seq<Option<Payout>>, after: seq<Option<Payout>>) {
    |after| == |before| && forall i :: 0 <= i < |before| && IsOpen(after[i]) ==>
      IsOpen(before[i]) && before[i].value.user == after[i].value.user
  }

  lemma ClosedStaysClosed(s: State, e: Event)
    requires !(e.Resume? && e.frame < |s.frames| && (s.frames[e.frame].PayoutAtReserve? || s.frames[e.frame].ApproveAtWrite?))
    ensures OnlyCloses(s.payouts, Next(s, e).payouts)
  {
    if e.Resume? && e.frame < |s.frames| {
      ResumeOnlyCloses(s, e.frame, e.io);
    }
  }

  lemma ResumeOnlyCloses(s: State, r: RowId, io: Io)
    requires r < |s.frames| && !s.frames[r].PayoutAtReserve? && !s.frames[r].ApproveAtWrite?
    ensures OnlyCloses(s.payouts, ResumeStep(s, r, io).payouts)
  {
    match s.frames[r]
    case PayoutAtRestore(_, _, _) =>
    case _ => OthersKeepPayouts(s, r, io);
  }

  lemma OthersKeepPayouts(s: State, r: RowId, io: Io)
    requires r < |s.frames| && !s.frames[r].PayoutAtReserve? && !s.frames[r].ApproveAtWrite? && !s.frames[r].PayoutAtRestore?
    ensures ResumeStep(s, r, io).payouts == s.payouts
  {
  }

  /** The promise holds at every state of the run. */
  ghost predicate OneOpenPayoutThroughout(s: State, run: seq<Event>) {
    OneOpenPayout(Exec(s, run)) && (run != [] ==> OneOpenPayoutThroughout(s, run[..|run| - 1]))
  }

  /** No step of the run opens a payout row while another row of that user is open. */
  ghost predicate GuardsStillHold(s: State, run: seq<Event>) {
    run != [] ==> GuardsStillHold(s, run[..|run| - 1]) && !OpensSecond(Exec(s, run[..|run| - 1]), run[|run| - 1])
  }

  /**
   * The promise holds throughout a run exactly when the guard that was read before each opening
   * write still holds at the write.
   */
  lemma {:induction false} OneOpenPayoutExactly(s: State, run: seq<Event>)
    requires OneOpenPayout(s)
    ensures OneOpenPayoutThroughout(s, run) <==> GuardsStillHold(s, run)
  {
    if run != [] {
      var most := run[..|run| - 1];
      OneOpenPayoutExactly(s, most);
      if OneOpenPayout(Exec(s, most)) {
        StepOpensSecond(Exec(s, most), run[|run| - 1]);
      }
    }
  }

  lemma TwoReservations(s: State, user: UserId, a: int, b: int)
    requires |s.frames| == 2 && s.payouts == [] && user in s.Balances()
    ensures !OneOpenPayout(ReserveStep(ReserveStep(s, 0, user, a, "A"), 1, user, b, "B"))
  {
    var t := ReserveStep(ReserveStep(s, 0, user, a, "A"), 1, user, b, "B");
    assert IsOpen(t.payouts[0]) && IsOpen(t.payouts[1]);
  }

  /** Two requests that have both arrived: count, count, reserve, reserve. */
  lemma OverlappingPayouts(s: State, user: UserId, a: int, b: int, io: Io)
    requires s.frames == [PayoutAtCount(user, a, "A"), PayoutAtCount(user, b, "B")] && s.payouts == [] && user in s.Balances()
    ensures !OneOpenPayout(Next(Next(Next(Next(s, Resume(0, io)), Resume(1, io)), Resume(0, io)), Resume(1, io)))
  {
    hide Wallet.Next;
    CountGoesOn(s, 0, user, a, "A", io);
    var s1 := s.At(0, PayoutAtReserve(user, a, "A"));
    CountGoesOn(s1, 1, user, b, "B", io);
    var s2 := s1.At(1, PayoutAtReserve(user, b, "B"));
    ReserveGoesOn(s2, 0, user, a, "A", io);
    var s3 := ReserveStep(s2, 0, user, a, "A");
    assert s3.frames[1] == s2.frames[1];
    TwoReservations(s2, user, a, b);
    hide Wallet.ReserveStep;
    ReserveGoesOn(s3, 1, user, b, "B", io);
  }

  /** It is not promised in general: two overlapping requests of a solvent user both succeed. */
  lemma TwoPayoutsCanBeOpen()
    ensures exists run :: !OneOpenPayout(Exec(Opened(map["u" := 200_000]), run))
  {
    var io := Io(NotVerified, 0);
    var s0 := Opened(map["u" := 200_000]);
    var first := [StartPayout("u", 50_000, "A"), StartPayout("u", 60_000, "B"), Resume(0, io)];
    var second := [Resume(1, io), Resume(0, io), Resume(1, io)];
    var arrived := Next(Next(s0, first[0]), first[1]);
    assert arrived.frames == [PayoutAtCount("u", 50_000, "A"), PayoutAtCount("u", 60_000, "B")];
    hide Wallet.Next;
    hide Wallet.Exec;
    hide OneOpenPayout;
    OverlappingPayouts(arrived, "u", 50_000, 60_000, io);
    ThreeSteps(s0, first);
    ThreeSteps(Exec(s0, first), second);
    ExecConcat(s0, first, second);
    assert !OneOpenPayout(Exec(s0, first + second));
  }

  lemma CountGoesOn(s: State, r: RowId, user: UserId, amount: int, iban: string, io: Io)
    requires r < |s.frames| && s.frames[r] == PayoutAtCount(user, amount, iban) && !HasOpenPayout(s, user)
    ensures Next(s, Resume(r, io)) == s.At(r, PayoutAtReserve(user, amount, iban))
  {
  }

  lemma ReserveGoesOn(s: State, r: RowId, user: UserId, amount: int, iban: string, io: Io)
    requires r < |s.frames| && s.frames[r] == PayoutAtReserve(user, amount, iban)
    ensures Next(s, Resume(r, io)) == ReserveStep(s, r, user, amount, iban)
  {
  }
}
