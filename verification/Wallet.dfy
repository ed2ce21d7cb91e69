/**
 * The wallet protocol: payment callbacks, payouts, refunds, admin adjustments and ad charges
 * run concurrently against shared rows. One database call, or one transaction, is one atomic
 * step; a request that waits between two steps is a frame in the table of suspended requests.
 */
module Wallet {
  import opened Optional
  import opened AdBilling
  import opened AdCampaigns

  type PostId = string

  datatype Purpose = Boost | BusinessAccount | WalletTopup
  datatype PaymentStatus = Pending | Success | Failed | Refunded
  datatype PayoutStatus = PayoutPending | PayoutApproved | PayoutRejected | PayoutPaid

  datatype Plan = Plan(price: int, durationHours: nat)
  datatype Post = Post(id: PostId, owner: UserId)

  datatype Payment = Payment(
    user: UserId, amount: int, purpose: Purpose, post: Option<PostId>, plan: Option<Plan>,
    authority: string, status: PaymentStatus, refId: Option<string>)
  datatype Payout = Payout(user: UserId, amount: int, iban: string, status: PayoutStatus)
  datatype WalletOp = WalletOp(user: UserId, delta: int)

  datatype GatewayResult = Verified(refId: Option<string>) | NotVerified
  /** What the outside world answers when a request is resumed. */
  datatype Io = Io(gateway: GatewayResult, now: int)

  datatype Reply =
    | NotFound | AlreadyProcessed(success: bool) | Cancelled | Refused | PaymentDone
    | BadAmount | PayoutUnderReview | InsufficientFunds | PayoutMade(row: RowId)
    | NotRefundable | AlreadyRefunded | BalanceTooLow | RefundDone
    | NotPending | ApproveDone

  /** Where a suspended request will continue, with the values it has already read. */
  datatype Frame =
    | VerifyAtGateway(pay: RowId, snap: Payment)
    | VerifyAtFail(pay: RowId, reply: Reply)
    | VerifyAtClaim(pay: RowId, snap: Payment, ref: Option<string>)
    | VerifyAtReread(pay: RowId)
    | VerifyAtApply(pay: RowId, snap: Payment)
    | PayoutAtCount(user: UserId, amount: int, iban: string)
    | PayoutAtReserve(user: UserId, amount: int, iban: string)
    | PayoutAtCheck(user: UserId, amount: int, row: RowId)
    | PayoutAtRestore(user: UserId, amount: int, row: RowId)
    | RefundAtTransaction(pay: RowId, snap: Payment)
    | ApproveAtWrite(row: RowId)
    | Done(reply: Reply)

  /** The tables, the suspended requests, and the log of side-effect branches that ran. */
  datatype State = State(
    desk: Desk, payments: seq<Payment>, payouts: seq<Option<Payout>>, frames: seq<Frame>,
    audit: seq<WalletOp>, applied: seq<RowId>, promoted: map<PostId, int>, business: map<UserId, int>)
  {
    function Balances(): map<UserId, int> { desk.books.balance }

    function Add(u: UserId, delta: int): State
      requires u in Balances()
    {
      this.(desk := desk.(books := desk.books.(balance := Balances()[u := Balances()[u] + delta])))
    }

    function At(r: RowId, f: Frame): State
      requires r < |frames|
    {
      this.(frames := frames[r := f])
    }

    function Set(p: RowId, status: PaymentStatus, ref: Option<string>): State
      requires p < |payments|
    {
      this.(payments := payments[p := payments[p].(status := status, refId := ref)])
    }
  }

  datatype InitiateInput = InitiateInput(purpose: Purpose, amount: int, plan: Option<Plan>, post: Option<Post>)

  datatype Event =
    | Initiate(user: UserId, input: InitiateInput, authority: string)
    | StartVerify(authority: string, ok: bool, found: RowId)
    | StartPayout(user: UserId, amount: int, iban: string)
    | StartRefund(pay: RowId)
    | StartApprove(row: RowId)
    | RejectPayout(row: RowId)
    | MarkPaid(row: RowId)
    | AdminCredit(user: UserId, amount: int)
    | AdminDebit(user: UserId, amount: int)
    | Ads(action: Action)
    | Resume(frame: RowId, io: Io)

  const BUSINESS_PRICE := 300_000
  const MIN_TOPUP := 10_000
  const HOUR_MS := 3_600_000
  const BUSINESS_MS := 30 * 86_400_000

  /** The amount a payment is created with, or None when the request is refused. */
  function PriceOf(user: UserId, input: InitiateInput): Option<int> {
    match input.purpose
    case Boost =>
      if input.plan.Some? && input.post.Some? && input.post.value.owner == user
      then Some(input.plan.value.price) else None
    case BusinessAccount => Some(BUSINESS_PRICE)
    case WalletTopup => if input.amount >= MIN_TOPUP then Some(input.amount) else None
  }

  predicate IsOpen(p: Option<Payout>) {
    p.Some? && (p.value.status == PayoutPending || p.value.status == PayoutApproved)
  }

  predicate HasOpenPayout(s: State, user: UserId) {
    exists i :: 0 <= i < |s.payouts| && IsOpen(s.payouts[i]) && s.payouts[i].value.user == user
  }

  function WithPayoutStatus(s: State, row: RowId, status: PayoutStatus): State {
    if row < |s.payouts| && s.payouts[row].Some?
    then s.(payouts := s.payouts[row := Some(s.payouts[row].value.(status := status))])
    else s
  }

  /** A new request runs to its first wait and is suspended there. */
  function Suspend(s: State, f: Frame): State { s.(frames := s.frames + [f]) }

  function VerifyEntry(s: State, ok: bool, found: RowId): Frame
    requires found < |s.payments|
  {
    var p := s.payments[found];
    if p.status != Pending then Done(AlreadyProcessed(p.status == Success))
    else if !ok then VerifyAtFail(found, Cancelled)
    else VerifyAtGateway(found, p)
  }

  function RefundEntry(s: State, pay: RowId): Frame {
    if pay >= |s.payments| then Done(NotFound)
    else if s.payments[pay].status != Success then Done(NotRefundable)
    else RefundAtTransaction(pay, s.payments[pay])
  }

  function ApproveEntry(s: State, row: RowId): Frame {
    if row >= |s.payouts| || s.payouts[row].None? then Done(NotFound)
    else if s.payouts[row].value.status != PayoutPending then Done(NotPending)
    else ApproveAtWrite(row)
  }

  function PayoutEntry(user: UserId, amount: int, iban: string): Frame {
    if amount <= 0 then Done(BadAmount) else PayoutAtCount(user, amount, iban)
  }

  // ---------------------------------------------------------------- one step of one request

  /** Both failing exits of a callback: pending becomes failed, any other status stays. */
  function FailStep(s: State, r: RowId, pay: RowId, reply: Reply): State
    requires r < |s.frames|
  {
    var after := s.At(r, Done(reply));
    if pay < |s.payments| && s.payments[pay].status == Pending
    then after.Set(pay, Failed, s.payments[pay].refId) else after
  }

  /** The guarded pending-to-success update: only the request it affects goes on to the side effects. */
  function ClaimStep(s: State, r: RowId, pay: RowId, snap: Payment, ref: Option<string>): State
    requires r < |s.frames|
  {
    if pay < |s.payments| && s.payments[pay].status == Pending
    then s.At(r, VerifyAtApply(pay, snap)).Set(pay, Success, ref)
    else s.At(r, VerifyAtReread(pay))
  }

  function ApplyStep(s: State, r: RowId, pay: RowId, snap: Payment, now: int): State
    requires r < |s.frames|
  {
    var after := s.At(r, Done(PaymentDone)).(applied := s.applied + [pay]);
    if snap.purpose == Boost && snap.post.Some? && snap.plan.Some? then
      after.(promoted := s.promoted[snap.post.value := now + snap.plan.value.durationHours * HOUR_MS])
    else if snap.purpose == BusinessAccount then
      after.(business := s.business[snap.user := now + BUSINESS_MS])
    else if snap.purpose == WalletTopup && snap.user in s.Balances() then after.Add(snap.user, snap.amount)
    else after
  }

  /** The first payout transaction: take the money and create the row, without looking at the balance. */
  function ReserveStep(s: State, r: RowId, user: UserId, amount: int, iban: string): State
    requires r < |s.frames|
  {
    if user !in s.Balances() then s.At(r, Done(InsufficientFunds))
    else
      s.At(r, PayoutAtCheck(user, amount, |s.payouts|)).Add(user, -amount)
       .(payouts := s.payouts + [Some(Payout(user, amount, iban, PayoutPending))])
  }

  function CheckStep(s: State, r: RowId, user: UserId, amount: int, row: RowId): State
    requires r < |s.frames|
  {
    if user in s.Balances() && s.Balances()[user] < 0 then s.At(r, PayoutAtRestore(user, amount, row))
    else s.At(r, Done(PayoutMade(row)))
  }

  /** The compensating transaction: give the money back and delete the row. */
  function RestoreStep(s: State, r: RowId, user: UserId, amount: int, row: RowId): State
    requires r < |s.frames|
  {
    var after := s.At(r, Done(InsufficientFunds));
    if user in s.Balances() && row < |s.payouts| && s.payouts[row].Some?
    then after.Add(user, amount).(payouts := s.payouts[row := None]) else after
  }

  /** The refund transaction: both guarded writes, or neither. */
  function RefundStep(s: State, r: RowId, pay: RowId, snap: Payment): State
    requires r < |s.frames|
  {
    if pay >= |s.payments| || s.payments[pay].status != Success then s.At(r, Done(AlreadyRefunded))
    else if snap.purpose != WalletTopup then s.At(r, Done(RefundDone)).Set(pay, Refunded, s.payments[pay].refId)
    else if snap.user !in s.Balances() || s.Balances()[snap.user] < snap.amount then s.At(r, Done(BalanceTooLow))
    else s.At(r, Done(RefundDone)).Set(pay, Refunded, s.payments[pay].refId).Add(snap.user, -snap.amount)
  }

  function ResumeStep(s: State, r: RowId, io: Io): State
    requires r < |s.frames|
  {
    match s.frames[r]
    case VerifyAtGateway(pay, snap) =>
      (match io.gateway
       case Verified(ref) => s.At(r, VerifyAtClaim(pay, snap, ref))
       case NotVerified => s.At(r, VerifyAtFail(pay, Refused)))
    case VerifyAtFail(pay, reply) => FailStep(s, r, pay, reply)
    case VerifyAtClaim(pay, snap, ref) => ClaimStep(s, r, pay, snap, ref)
    case VerifyAtReread(pay) =>
      s.At(r, Done(AlreadyProcessed(pay < |s.payments| && s.payments[pay].status == Success)))
    case VerifyAtApply(pay, snap) => ApplyStep(s, r, pay, snap, io.now)
    case PayoutAtCount(user, amount, iban) =>
      s.At(r, if HasOpenPayout(s, user) then Done(PayoutUnderReview) else PayoutAtReserve(user, amount, iban))
    case PayoutAtReserve(user, amount, iban) => ReserveStep(s, r, user, amount, iban)
    case PayoutAtCheck(user, amount, row) => CheckStep(s, r, user, amount, row)
    case PayoutAtRestore(user, amount, row) => RestoreStep(s, r, user, amount, row)
    case RefundAtTransaction(pay, snap) => RefundStep(s, r, pay, snap)
    case ApproveAtWrite(row) =>
      WithPayoutStatus(s, row, PayoutApproved)
        .At(r, Done(if row < |s.payouts| && s.payouts[row].Some? then ApproveDone else NotFound))
    case Done(_) => s
  }

  function Next(s: State, e: Event): State {
    match e
    case Initiate(u, input, authority) =>
      (match PriceOf(u, input)
       case None => s
       case Some(price) =>
         if u !in s.Balances() then s
         else s.(payments := s.payments + [Payment(u, price, input.purpose,
                   if input.post.Some? then Some(input.post.value.id) else None, input.plan,
                   authority, Pending, None)]))
    case StartVerify(authority, ok, found) =>
      if found < |s.payments| && s.payments[found].authority == authority
      then Suspend(s, VerifyEntry(s, ok, found)) else s
    case StartPayout(u, amount, iban) => Suspend(s, PayoutEntry(u, amount, iban))
    case StartRefund(pay) => Suspend(s, RefundEntry(s, pay))
    case StartApprove(row) => Suspend(s, ApproveEntry(s, row))
    case RejectPayout(row) => WithPayoutStatus(s, row, PayoutRejected)
    case MarkPaid(row) => WithPayoutStatus(s, row, PayoutPaid)
    case AdminCredit(u, n) =>
      if n < 1 || u !in s.Balances() then s
      else s.Add(u, n).(audit := s.audit + [WalletOp(u, n)])
    case AdminDebit(u, n) =>
      if n < 1 || u !in s.Balances() || s.Balances()[u] < n then s
      else s.Add(u, -n).(audit := s.audit + [WalletOp(u, -n)])
    case Ads(a) => s.(desk := Act(s.desk, a))
    case Resume(r, io) => if r < |s.frames| then ResumeStep(s, r, io) else s
  }

  /** A run: any interleaving of arrivals and resumptions, oldest event first. */
  function Exec(s: State, run: seq<Event>): State {
    if run == [] then s else Next(Exec(s, run[..|run| - 1]), run[|run| - 1])
  }

  /** Users with their opening balances, and nothing else. */
  function Opened(opening: map<UserId, int>): State {
    State(Desk(Books(opening, [], [], [], []), []), [], [], [], [], [], map[], map[])
  }

  lemma {:induction false} ExecConcat(s: State, first: seq<Event>, second: seq<Event>)
    ensures Exec(s, first + second) == Exec(Exec(s, first), second)
    decreases |second|
  {
    if second == [] {
      assert first + second == first;
    } else {
      var most := second[..|second| - 1];
      assert (first + second)[..|first + second| - 1] == first + most;
      ExecConcat(s, first, most);
    }
  }
}
