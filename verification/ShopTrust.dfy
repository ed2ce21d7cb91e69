/**
 * A shop's trust score and tier. Each handler checks in one database round trip and writes in
 * another; other requests may fall between the two.
 */
module ShopTrust {
  import opened Optional
  import opened Sums

  type RowId = nat

  datatype Kind = PHONE | NATIONAL_ID | BUSINESS_LICENSE | COMPANY_REG | ENAMAD | ADDRESS | BANK_ACCOUNT
  datatype Status = PENDING | UNDER_REVIEW | APPROVED | REJECTED
  datatype Tier = UNVERIFIED | BASIC | STANDARD | VERIFIED | TRUSTED | PREMIUM

  datatype Shop = Shop(trustScore: int, trustTier: Tier)
  datatype Request = Request(shop: RowId, kind: Kind, status: Status, scoreGranted: Option<int>)

  /** A handler whose checks have passed and whose write is still to come. */
  datatype Ticket =
    | GrantPhone(shop: RowId, seen: int)
    | AddPending(shop: RowId, kind: Kind)
    | ApproveRow(row: RowId, seen: int)
    | RejectRow(row: RowId)

  datatype State = State(shops: seq<Shop>, requests: seq<Request>, tickets: seq<Option<Ticket>>)

  datatype Event =
    | StartSubmit(shop: RowId, kind: Kind)
    | StartApprove(row: RowId)
    | StartReject(row: RowId)
    | Write(ticket: RowId)

  function Score(kind: Kind): int {
    match kind
    case PHONE => 100
    case NATIONAL_ID => 150
    case BUSINESS_LICENSE => 250
    case COMPANY_REG => 300
    case ENAMAD => 200
    case ADDRESS => 100
    case BANK_ACCOUNT => 100
  }

  function CalculateTrustTier(score: int): Tier {
    if score >= 1000 then PREMIUM
    else if score >= 800 then TRUSTED
    else if score >= 500 then VERIFIED
    else if score >= 250 then STANDARD
    else if score >= 100 then BASIC
    else UNVERIFIED
  }

  const THRESHOLDS := [100, 250, 500, 800, 1000]

  /** What each kind is worth: all seven make a shop premium, and without the registration it is only trusted. */
  lemma ScoresExactly()
    ensures Score(PHONE) == Score(ADDRESS) == Score(BANK_ACCOUNT) == 100 && Score(NATIONAL_ID) == 150
    ensures Score(ENAMAD) == 200 && Score(BUSINESS_LICENSE) == 250 && Score(COMPANY_REG) == 300
    ensures var all := Score(PHONE) + Score(NATIONAL_ID) + Score(BUSINESS_LICENSE) + Score(COMPANY_REG) + Score(ENAMAD)
        + Score(ADDRESS) + Score(BANK_ACCOUNT);
      CalculateTrustTier(all) == PREMIUM && CalculateTrustTier(all - Score(COMPANY_REG)) == TRUSTED
  {
  }

  /** Each tier is an interval of scores. */
  lemma TiersExactly(score: int)
    ensures CalculateTrustTier(score) == UNVERIFIED <==> score < 100
    ensures CalculateTrustTier(score) == BASIC <==> 100 <= score < 250
    ensures CalculateTrustTier(score) == STANDARD <==> 250 <= score < 500
    ensures CalculateTrustTier(score) == VERIFIED <==> 500 <= score < 800
    ensures CalculateTrustTier(score) == TRUSTED <==> 800 <= score < 1000
    ensures CalculateTrustTier(score) == PREMIUM <==> 1000 <= score
  {
  }

  // ---------------------------------------------------------------- the two halves of each handler

  /** Open or approved: what the guard of a submission looks for. */
  predicate Stands(r: Request) { r.status in {PENDING, UNDER_REVIEW, APPROVED} }

  predicate HasRequest(s: State, shop: RowId, kind: Kind) {
    exists i :: 0 <= i < |s.requests| && s.requests[i].shop == shop && s.requests[i].kind == kind && Stands(s.requests[i])
  }

  function Issue(s: State, t: Ticket): State { s.(tickets := s.tickets + [Some(t)]) }

  /** Score up, tier from the score that was read before. */
  function Grant(s: State, shop: RowId, seen: int, score: int): seq<Shop>
    requires shop < |s.shops|
  {
    s.shops[shop := Shop(s.shops[shop].trustScore + score, CalculateTrustTier(seen + score))]
  }

  function Perform(s: State, t: Ticket): State {
    match t
    case GrantPhone(shop, seen) =>
      if shop >= |s.shops| then s
      else s.(requests := s.requests + [Request(shop, PHONE, APPROVED, Some(Score(PHONE)))],
              shops := Grant(s, shop, seen, Score(PHONE)))
    case AddPending(shop, kind) =>
      s.(requests := s.requests + [Request(shop, kind, PENDING, None)])
    case ApproveRow(row, seen) =>
      if row >= |s.requests| || s.requests[row].shop >= |s.shops| then s
      else
        var r := s.requests[row];
        s.(requests := s.requests[row := r.(status := APPROVED, scoreGranted := Some(Score(r.kind)))],
           shops := Grant(s, r.shop, seen, Score(r.kind)))
    case RejectRow(row) =>
      if row >= |s.requests| then s
      else s.(requests := s.requests[row := s.requests[row].(status := REJECTED)])
  }

  function Next(s: State, e: Event): State {
    match e
    case StartSubmit(shop, kind) =>
      if shop >= |s.shops| || HasRequest(s, shop, kind) then s
      else Issue(s, if kind == PHONE then GrantPhone(shop, s.shops[shop].trustScore) else AddPending(shop, kind))
    case StartApprove(row) =>
      if row >= |s.requests| || s.requests[row].status == APPROVED || s.requests[row].shop >= |s.shops| then s
      else Issue(s, ApproveRow(row, s.shops[s.requests[row].shop].trustScore))
    case StartReject(row) =>
      if row >= |s.requests| || s.requests[row].status == APPROVED then s else Issue(s, RejectRow(row))
    case Write(k) =>
      if k >= |s.tickets| || s.tickets[k].None? then s
      else Perform(s.(tickets := s.tickets[k := None]), s.tickets[k].value)
  }

  function Exec(s: State, run: seq<Event>): State {
    if run == [] then s else Next(Exec(s, run[..|run| - 1]), run[|run| - 1])
  }

  function Opened(shops: nat): State { State(seq(shops, i => Shop(0, UNVERIFIED)), [], []) }

  // ---------------------------------------------------------------- what the handlers answer and write

  /** A request of the shop and kind that is open or approved. */
  ghost predicate HasStanding(s: State, shop: RowId, kind: Kind) {
    exists r :: r in s.requests && r.shop == shop && r.kind == kind && r.status != REJECTED
  }

  /** A submission is taken up exactly if the shop exists and nothing of the kind stands. */
  lemma SubmitAnswersExactly(s: State, shop: RowId, kind: Kind)
    ensures Next(s, StartSubmit(shop, kind)) ==
      if shop < |s.shops| && !HasStanding(s, shop, kind)
      then s.(tickets := s.tickets + [Some(if kind == PHONE then GrantPhone(shop, s.shops[shop].trustScore) else AddPending(shop, kind))])
      else s
  {
    if r :| r in s.requests && r.shop == shop && r.kind == kind && r.status != REJECTED {
      var i :| 0 <= i < |s.requests| && s.requests[i] == r;
      assert Stands(s.requests[i]);
    }
  }

  /** A decision is taken up exactly if the request exists and is not approved. */
  lemma DecisionAnswersExactly(s: State, row: RowId)
    requires Rows(s)
    ensures var open := row < |s.requests| && s.requests[row].status in {PENDING, UNDER_REVIEW, REJECTED};
      && Next(s, StartApprove(row)) == (if open then Issue(s, ApproveRow(row, s.shops[s.requests[row].shop].trustScore)) else s)
      && Next(s, StartReject(row)) == (if open then Issue(s, RejectRow(row)) else s)
  {
  }

  /** What a write leaves of the requests and of the shops' scores, column by column. */
  lemma WriteExactly(s: State, k: RowId)
    requires Rows(s) && k < |s.tickets| && s.tickets[k].Some?
    ensures var t := Next(s, Write(k));
      && t.tickets == s.tickets[k := None] && |t.shops| == |s.shops|
      && match s.tickets[k].value
         case GrantPhone(shop, _) =>
           && t.requests == s.requests + [Request(shop, PHONE, APPROVED, Some(100))]
           && GainsOnly(s, t, shop, 100)
         case AddPending(shop, kind) => t.requests == s.requests + [Request(shop, kind, PENDING, None)] && t.shops == s.shops
         case ApproveRow(row, _) =>
           var r := s.requests[row];
           && t.requests == s.requests[row := Request(r.shop, r.kind, APPROVED, Some(Score(r.kind)))]
           && GainsOnly(s, t, r.shop, Score(r.kind))
         case RejectRow(row) =>
           var r := s.requests[row];
           t.requests == s.requests[row := Request(r.shop, r.kind, REJECTED, r.scoreGranted)] && t.shops == s.shops
  {
  }

  /** One shop's score goes up by what was granted, and no other shop changes. */
  ghost predicate GainsOnly(s: State, t: State, shop: RowId, gain: int)
    requires |t.shops| == |s.shops|
  {
    && shop < |s.shops| && t.shops[shop].trustScore == s.shops[shop].trustScore + gain
    && forall i :: 0 <= i < |s.shops| && i != shop ==> t.shops[i] == s.shops[i]
  }

  // ---------------------------------------------------------------- the score

  function Granted(shop: RowId): Request -> int {
    (r: Request) => if r.shop == shop && r.status == APPROVED && r.scoreGranted.Some? then r.scoreGranted.value else 0
  }

  /** A shop's score is the sum of what its approved requests were granted. */
  ghost predicate ScoreMatches(s: State) {
    forall i :: 0 <= i < |s.shops| ==> s.shops[i].trustScore == Sum(s.requests, Granted(i))
  }

  ghost predicate Rows(s: State) {
    && (forall i :: 0 <= i < |s.requests| ==> s.requests[i].shop < |s.shops|)
    && (forall i :: 0 <= i < |s.requests| && s.requests[i].status == APPROVED ==>
          s.requests[i].scoreGranted == Some(Score(s.requests[i].kind)))
    && (forall k :: 0 <= k < |s.tickets| && s.tickets[k].Some? ==>
          match s.tickets[k].value
          case GrantPhone(shop, _) => shop < |s.shops|
          case AddPending(shop, _) => shop < |s.shops|
          case ApproveRow(row, _) => row < |s.requests|
          case RejectRow(row) => row < |s.requests|)
  }

  lemma NextKeepsRows(s: State, e: Event)
    requires Rows(s)
    ensures Rows(Next(s, e))
    ensures |Next(s, e).shops| == |s.shops|
  {
  }

  /** The write decides a request that someone approved after it was checked. */
  predicate DecidesTwice(s: State, e: Event) {
    && e.Write? && e.ticket < |s.tickets| && s.tickets[e.ticket].Some?
    && var t := s.tickets[e.ticket].value;
       (t.ApproveRow? || t.RejectRow?) && t.row < |s.requests| && s.requests[t.row].status == APPROVED
  }

  lemma RewriteMoves(s: State, row: RowId, after: Request, i: RowId)
    requires row < |s.requests|
    ensures Sum(s.requests[row := after], Granted(i)) ==
      Sum(s.requests, Granted(i)) - Granted(i)(s.requests[row]) + Granted(i)(after)
  {
    SumUpdate(s.requests, row, after, Granted(i));
  }

  lemma PerformMatchesExactly(s: State, t: Ticket)
    requires Rows(s) && ScoreMatches(s)
    requires t.ApproveRow? || t.RejectRow? ==> t.row < |s.requests|
    ensures ScoreMatches(Perform(s, t)) <==>
      !((t.ApproveRow? || t.RejectRow?) && s.requests[t.row].status == APPROVED)
  {
    hide Sum;
    var after := Perform(s, t);
    match t {
      case GrantPhone(shop, _) =>
        forall i | 0 <= i < |s.shops| ensures shop < |s.shops| ==> after.shops[i].trustScore == Sum(after.requests, Granted(i)) {
          SumAppend(s.requests, Request(shop, PHONE, APPROVED, Some(Score(PHONE))), Granted(i));
        }
      case AddPending(shop, kind) =>
        forall i | 0 <= i < |s.shops| ensures after.shops[i].trustScore == Sum(after.requests, Granted(i)) {
          SumAppend(s.requests, Request(shop, kind, PENDING, None), Granted(i));
        }
      case ApproveRow(row, _) =>
        forall i | 0 <= i < |s.shops| {
          RewriteMoves(s, row, after.requests[row], i);
        }
      case RejectRow(row) =>
        forall i | 0 <= i < |s.shops| {
          RewriteMoves(s, row, after.requests[row], i);
        }
        var shop := s.requests[row].shop;
        assert after.shops[shop] == s.shops[shop];
    }
  }

  /** One event keeps the score right exactly unless its write decides an approved request again. */
  lemma StepMatchesExactly(s: State, e: Event)
    requires Rows(s) && ScoreMatches(s)
    ensures ScoreMatches(Next(s, e)) <==> !DecidesTwice(s, e)
  {
    if e.Write? && e.ticket < |s.tickets| && s.tickets[e.ticket].Some? {
      var t := s.tickets[e.ticket].value;
      var freed := s.(tickets := s.tickets[e.ticket := None]);
      assert Rows(freed) && ScoreMatches(freed);
      PerformMatchesExactly(freed, t);
    }
  }

  ghost predicate ScoreMatchesThroughout(s: State, run: seq<Event>) {
    ScoreMatches(Exec(s, run)) && (run != [] ==> ScoreMatchesThroughout(s, run[..|run| - 1]))
  }

  ghost predicate NoneDecidedTwice(s: State, run: seq<Event>) {
    run != [] ==> NoneDecidedTwice(s, run[..|run| - 1]) && !DecidesTwice(Exec(s, run[..|run| - 1]), run[|run| - 1])
  }

  lemma {:induction false} ExecKeepsRows(s: State, run: seq<Event>)
    requires Rows(s)
    ensures Rows(Exec(s, run)) && |Exec(s, run).shops| == |s.shops|
  {
    if run != [] {
      ExecKeepsRows(s, run[..|run| - 1]);
      NextKeepsRows(Exec(s, run[..|run| - 1]), run[|run| - 1]);
    }
  }

  lemma OpenedMatches(shops: nat)
    ensures Rows(Opened(shops)) && ScoreMatches(Opened(shops)) && TiersMatch(Opened(shops)) && OneStanding(Opened(shops))
  {
  }

  /**
   * Over every interleaving of submissions, approvals and rejections the scores equal the granted
   * sums all along exactly if no decision is written on a request that is already approved.
   */
  lemma {:induction false} ScoreMatchesExactly(s: State, run: seq<Event>)
    requires Rows(s) && ScoreMatches(s)
    ensures ScoreMatchesThroughout(s, run) <==> NoneDecidedTwice(s, run)
  {
    if run != [] {
      hide ScoreMatches;
      hide DecidesTwice;
      hide Rows;
      hide Next;
      var most := run[..|run| - 1];
      ScoreMatchesExactly(s, most);
      ExecKeepsRows(s, most);
      if ScoreMatches(Exec(s, most)) {
        StepMatchesExactly(Exec(s, most), run[|run| - 1]);
      }
    }
  }

  // ---------------------------------------------------------------- the tier

  ghost predicate TiersMatch(s: State) {
    forall i :: 0 <= i < |s.shops| ==> s.shops[i].trustTier == CalculateTrustTier(s.shops[i].trustScore)
  }

  predicate ThresholdBetween(a: int, b: int) {
    exists i :: 0 <= i < |THRESHOLDS| && (a < THRESHOLDS[i] <= b || b < THRESHOLDS[i] <= a)
  }

  /** Two scores have one tier exactly if no threshold lies between them. */
  lemma SameTierExactly(a: int, b: int)
    ensures CalculateTrustTier(a) == CalculateTrustTier(b) <==> !ThresholdBetween(a, b)
  {
    assert THRESHOLDS[0] == 100 && THRESHOLDS[1] == 250 && THRESHOLDS[2] == 500 && THRESHOLDS[3] == 800 && THRESHOLDS[4] == 1000;
    assert !ThresholdBetween(a, b) ==> forall i :: 0 <= i < 5 ==> (a < THRESHOLDS[i] <==> b < THRESHOLDS[i]);
  }

  /** The grant an event writes, if any: the shop, the score it read, and what it adds. */
  function GrantOf(s: State, e: Event): Option<(RowId, int, int)> {
    if !e.Write? || e.ticket >= |s.tickets| || s.tickets[e.ticket].None? then None
    else
      match s.tickets[e.ticket].value
      case GrantPhone(shop, seen) => if shop < |s.shops| then Some((shop, seen, Score(PHONE))) else None
      case ApproveRow(row, seen) =>
        if row < |s.requests| && s.requests[row].shop < |s.shops|
        then Some((s.requests[row].shop, seen, Score(s.requests[row].kind))) else None
      case _ => None
  }

  /** The score has moved since it was read, and a threshold lies between the two outcomes. */
  predicate StaleAcrossThreshold(s: State, e: Event) {
    var g := GrantOf(s, e);
    g.Some? && g.value.0 < |s.shops|
    && ThresholdBetween(g.value.1 + g.value.2, s.shops[g.value.0].trustScore + g.value.2)
  }

  lemma ShopsAfter(s: State, e: Event)
    ensures var g := GrantOf(s, e);
      Next(s, e).shops == if g.None? then s.shops else Grant(s, g.value.0, g.value.1, g.value.2)
  {
  }

  /** One event keeps the tiers right exactly unless it grants on a stale score across a threshold. */
  lemma StepKeepsTiersExactly(s: State, e: Event)
    requires TiersMatch(s)
    ensures TiersMatch(Next(s, e)) <==> !StaleAcrossThreshold(s, e)
  {
    hide Next;
    hide CalculateTrustTier;
    hide ThresholdBetween;
    var g := GrantOf(s, e);
    ShopsAfter(s, e);
    if g.Some? {
      var (shop, seen, score) := g.value;
      SameTierExactly(seen + score, s.shops[shop].trustScore + score);
      assert Next(s, e).shops[shop] == Shop(s.shops[shop].trustScore + score, CalculateTrustTier(seen + score));
    }
  }

  ghost predicate TiersMatchThroughout(s: State, run: seq<Event>) {
    TiersMatch(Exec(s, run)) && (run != [] ==> TiersMatchThroughout(s, run[..|run| - 1]))
  }

  ghost predicate NoneStale(s: State, run: seq<Event>) {
    run != [] ==> NoneStale(s, run[..|run| - 1]) && !StaleAcrossThreshold(Exec(s, run[..|run| - 1]), run[|run| - 1])
  }

  /**
   * Over every interleaving the tiers are right all along exactly if no grant is written on a score
   * that moved across a threshold since it was read.
   */
  lemma {:induction false} TiersMatchExactly(s: State, run: seq<Event>)
    requires TiersMatch(s)
    ensures TiersMatchThroughout(s, run) <==> NoneStale(s, run)
  {
    if run != [] {
      hide TiersMatch;
      hide StaleAcrossThreshold;
      hide Next;
      var most := run[..|run| - 1];
      TiersMatchExactly(s, most);
      if TiersMatch(Exec(s, most)) {
        StepKeepsTiersExactly(Exec(s, most), run[|run| - 1]);
      }
    }
  }

  // ---------------------------------------------------------------- one standing request of a kind

  /** The promise behind the refusal of a second request: a shop has at most one standing request of a kind. */
  ghost predicate OneStanding(s: State) {
    forall i, j :: 0 <= i < j < |s.requests| && Stands(s.requests[i]) && Stands(s.requests[j])
      ==> s.requests[i].shop != s.requests[j].shop || s.requests[i].kind != s.requests[j].kind
  }

  /** The write opens a request, or approves a rejected one, while another of its kind stands. */
  predicate OpensSecond(s: State, e: Event) {
    && e.Write? && e.ticket < |s.tickets| && s.tickets[e.ticket].Some?
    && match s.tickets[e.ticket].value
       case GrantPhone(shop, _) => shop < |s.shops| && HasRequest(s, shop, PHONE)
       case AddPending(shop, kind) => HasRequest(s, shop, kind)
       case ApproveRow(row, _) => row < |s.requests| && s.requests[row].shop < |s.shops| && RevivesBeside(s, row)
       case RejectRow(_) => false
  }

  predicate RevivesBeside(s: State, row: RowId)
    requires row < |s.requests|
  {
    !Stands(s.requests[row]) && HasRequest(s, s.requests[row].shop, s.requests[row].kind)
  }

  lemma FiledKeepsOneExactly(s: State, t: State, r: Request)
    requires OneStanding(s) && Stands(r) && t.requests == s.requests + [r]
    ensures OneStanding(t) <==> !HasRequest(s, r.shop, r.kind)
  {
    if HasRequest(s, r.shop, r.kind) {
      var i :| 0 <= i < |s.requests| && s.requests[i].shop == r.shop && s.requests[i].kind == r.kind && Stands(s.requests[i]);
      assert t.requests[i] == s.requests[i] && t.requests[|s.requests|] == r;
    }
  }

  lemma DecidedKeepsOneExactly(s: State, t: State, row: RowId, r: Request)
    requires OneStanding(s) && row < |s.requests| && t.requests == s.requests[row := r]
    requires r.shop == s.requests[row].shop && r.kind == s.requests[row].kind
    ensures OneStanding(t) <==> !(Stands(r) && RevivesBeside(s, row))
  {
    if RevivesBeside(s, row) {
      var i :| 0 <= i < |s.requests| && s.requests[i].shop == r.shop && s.requests[i].kind == r.kind && Stands(s.requests[i]);
      assert i != row && t.requests[i] == s.requests[i] && t.requests[row] == r;
    } else if Stands(r) && !Stands(s.requests[row]) {
      assert forall i :: 0 <= i < |s.requests| && s.requests[i].shop == r.shop && s.requests[i].kind == r.kind ==> !Stands(s.requests[i]);
    }
  }

  /** One event keeps the promise exactly unless it opens or revives a request beside a standing one. */
  lemma StepKeepsOneStandingExactly(s: State, e: Event)
    requires OneStanding(s)
    ensures OneStanding(Next(s, e)) <==> !OpensSecond(s, e)
  {
    var after := Next(s, e);
    if e.Write? && e.ticket < |s.tickets| && s.tickets[e.ticket].Some? {
      hide OneStanding;
      match s.tickets[e.ticket].value {
        case GrantPhone(shop, _) =>
          if shop < |s.shops| {
            FiledKeepsOneExactly(s, after, Request(shop, PHONE, APPROVED, Some(Score(PHONE))));
          } else {
            SameRequests(s, after);
          }
        case AddPending(shop, kind) => FiledKeepsOneExactly(s, after, Request(shop, kind, PENDING, None));
        case ApproveRow(row, _) =>
          if row < |s.requests| && s.requests[row].shop < |s.shops| {
            DecidedKeepsOneExactly(s, after, row, after.requests[row]);
          } else {
            SameRequests(s, after);
          }
        case RejectRow(row) =>
          if row < |s.requests| {
            DecidedKeepsOneExactly(s, after, row, after.requests[row]);
          } else {
            SameRequests(s, after);
          }
      }
    }
  }

  lemma SameRequests(s: State, t: State)
    requires t.requests == s.requests
    ensures OneStanding(t) <==> OneStanding(s)
  {
  }

  ghost predicate OneStandingThroughout(s: State, run: seq<Event>) {
    OneStanding(Exec(s, run)) && (run != [] ==> OneStandingThroughout(s, run[..|run| - 1]))
  }

  ghost predicate NoneOpensSecond(s: State, run: seq<Event>) {
    run != [] ==> NoneOpensSecond(s, run[..|run| - 1]) && !OpensSecond(Exec(s, run[..|run| - 1]), run[|run| - 1])
  }

  /**
   * Over every interleaving a shop has at most one standing request of a kind all along exactly if no
   * write opens or revives one while another stands.
   */
  lemma {:induction false} OneStandingExactly(s: State, run: seq<Event>)
    requires OneStanding(s)
    ensures OneStandingThroughout(s, run) <==> NoneOpensSecond(s, run)
  {
    if run != [] {
      hide OneStanding;
      hide OpensSecond;
      hide Next;
      var most := run[..|run| - 1];
      OneStandingExactly(s, most);
      if OneStanding(Exec(s, most)) {
        StepKeepsOneStandingExactly(Exec(s, most), run[|run| - 1]);
      }
    }
  }

  // ---------------------------------------------------------------- whole handlers

  /** A handler that is not interrupted: its check, then at once its write. */
  function Handled(s: State, start: Event): State {
    if start.Write? then s
    else
      var checked := Next(s, start);
      if |checked.tickets| == |s.tickets| then s else Next(checked, Write(|s.tickets|))
  }

  lemma HandledKeepsBoth(s: State, start: Event)
    requires Rows(s) && ScoreMatches(s) && TiersMatch(s)
    ensures var t := Handled(s, start); Rows(t) && ScoreMatches(t) && TiersMatch(t)
  {
    var checked := Next(s, start);
    NextKeepsRows(s, start);
    if !start.Write? && |checked.tickets| != |s.tickets| {
      NextKeepsRows(checked, Write(|s.tickets|));
      StepMatchesExactly(checked, Write(|s.tickets|));
      StepKeepsTiersExactly(checked, Write(|s.tickets|));
    }
  }

  function HandledRun(s: State, starts: seq<Event>): State {
    if starts == [] then s else Handled(HandledRun(s, starts[..|starts| - 1]), starts[|starts| - 1])
  }

  /** Over every run of uninterrupted handlers each score is its granted sum and each tier is its score's. */
  lemma {:induction false} UninterruptedRunsMatch(shops: nat, starts: seq<Event>)
    ensures var s := HandledRun(Opened(shops), starts); Rows(s) && ScoreMatches(s) && TiersMatch(s)
  {
    if starts == [] {
      OpenedMatches(shops);
    } else {
      UninterruptedRunsMatch(shops, starts[..|starts| - 1]);
      HandledKeepsBoth(HandledRun(Opened(shops), starts[..|starts| - 1]), starts[|starts| - 1]);
    }
  }

  /** A handler that runs alone keeps the promise exactly unless it approves a rejected request beside a standing one. */
  lemma HandledKeepsOneStandingExactly(s: State, start: Event)
    requires OneStanding(s)
    ensures OneStanding(Handled(s, start)) <==>
      !(start.StartApprove? && start.row < |s.requests| && s.requests[start.row].shop < |s.shops| && RevivesBeside(s, start.row))
  {
    var checked := Next(s, start);
    if !start.Write? && |checked.tickets| != |s.tickets| {
      StepKeepsOneStandingExactly(checked, Write(|s.tickets|));
      SameRequests(s, checked);
    }
  }

  const FIRST := Request(0, ENAMAD, PENDING, None)
  const GRANTED := Request(0, ENAMAD, APPROVED, Some(200))
  const REFUSED := FIRST.(status := REJECTED)

  function OneShop(score: int, tier: Tier, requests: seq<Request>, spent: nat): State {
    State([Shop(score, tier)], requests, seq(spent, i => None))
  }

  lemma AsksAgain()
    ensures Handled(Opened(1), StartSubmit(0, ENAMAD)) == OneShop(0, UNVERIFIED, [FIRST], 1)
    ensures Handled(OneShop(0, UNVERIFIED, [FIRST], 1), StartReject(0)) == OneShop(0, UNVERIFIED, [REFUSED], 2)
    ensures Handled(OneShop(0, UNVERIFIED, [REFUSED], 2), StartSubmit(0, ENAMAD)) == OneShop(0, UNVERIFIED, [REFUSED, FIRST], 3)
  {
    assert !HasRequest(Opened(1), 0, ENAMAD);
    assert !HasRequest(OneShop(0, UNVERIFIED, [REFUSED], 2), 0, ENAMAD);
  }

  lemma BothAreGranted()
    ensures Handled(OneShop(0, UNVERIFIED, [REFUSED, FIRST], 3), StartApprove(0)) == OneShop(200, BASIC, [GRANTED, FIRST], 4)
    ensures Handled(OneShop(200, BASIC, [GRANTED, FIRST], 4), StartApprove(1)) == OneShop(400, STANDARD, [GRANTED, GRANTED], 5)
  {
  }

  /** With no two handlers overlapping, a rejected request and its successor are both approved and both counted. */
  lemma RejectedRequestCountsBeside()
    ensures var starts := [StartSubmit(0, ENAMAD), StartReject(0), StartSubmit(0, ENAMAD), StartApprove(0), StartApprove(1)];
      var s := HandledRun(Opened(1), starts);
      s.requests == [GRANTED, GRANTED] && s.shops == [Shop(400, STANDARD)] && !OneStanding(s)
  {
    hide Handled;
    hide Opened;
    var starts := [StartSubmit(0, ENAMAD), StartReject(0), StartSubmit(0, ENAMAD), StartApprove(0), StartApprove(1)];
    AsksAgain();
    BothAreGranted();
    assert starts[..4][..3] == starts[..3] && starts[..3][..2] == starts[..2] && starts[..2][..1] == starts[..1] && starts[..1][..0] == [];
    assert HandledRun(Opened(1), starts[..1]) == Handled(Opened(1), starts[0]);
    assert HandledRun(Opened(1), starts[..2]) == Handled(HandledRun(Opened(1), starts[..1]), starts[1]);
    assert HandledRun(Opened(1), starts[..3]) == Handled(HandledRun(Opened(1), starts[..2]), starts[2]);
    assert HandledRun(Opened(1), starts[..4]) == Handled(HandledRun(Opened(1), starts[..3]), starts[3]);
    var s := HandledRun(Opened(1), starts);
    assert s.requests[0] == s.requests[1] == GRANTED;
  }

  const ASKED := State([Shop(0, UNVERIFIED)], [Request(0, ENAMAD, PENDING, None)], [None])
  const TWO_ADMINS := ASKED.(tickets := [None, Some(ApproveRow(0, 0)), Some(ApproveRow(0, 0))])

  lemma AskingSteps()
    ensures Next(Next(Opened(1), StartSubmit(0, ENAMAD)), Write(0)) == ASKED
  {
    var s := Opened(1);
    assert s.shops == [Shop(0, UNVERIFIED)] && !HasRequest(s, 0, ENAMAD);
    assert Next(s, StartSubmit(0, ENAMAD)) == State([Shop(0, UNVERIFIED)], [], [Some(AddPending(0, ENAMAD))]);
  }

  lemma ApprovingSteps()
    ensures Next(Next(ASKED, StartApprove(0)), StartApprove(0)) == TWO_ADMINS
  {
    assert Next(ASKED, StartApprove(0)) == ASKED.(tickets := [None, Some(ApproveRow(0, 0))]);
  }

  lemma SecondDecision()
    ensures DecidesTwice(Next(TWO_ADMINS, Write(1)), Write(2))
  {
    var s := Next(TWO_ADMINS, Write(1));
    assert s.requests[0].status == APPROVED && s.tickets[2] == Some(ApproveRow(0, 0));
  }

  /** Two admins who approve one request at once count it twice. */
  lemma DoubleApprovalCountsTwice()
    ensures var run := [StartSubmit(0, ENAMAD), Write(0), StartApprove(0), StartApprove(0), Write(1), Write(2)];
      !ScoreMatchesThroughout(Opened(1), run)
  {
    hide Next;
    hide DecidesTwice;
    hide ScoreMatches;
    hide Rows;
    hide Opened;
    var run := [StartSubmit(0, ENAMAD), Write(0), StartApprove(0), StartApprove(0), Write(1), Write(2)];
    OpenedMatches(1);
    AskingSteps();
    ApprovingSteps();
    SecondDecision();
    FiveSteps(Opened(1), run);
    assert DecidesTwice(Exec(Opened(1), run[..5]), run[5]);
    ScoreMatchesExactly(Opened(1), run);
  }

  const FILED := State([Shop(0, UNVERIFIED)], [Request(0, BUSINESS_LICENSE, PENDING, None)], [None])
  const BOTH_SEEN := FILED.(tickets := [None, Some(ApproveRow(0, 0)), Some(GrantPhone(0, 0))])

  lemma FilingSteps()
    ensures Next(Next(Opened(1), StartSubmit(0, BUSINESS_LICENSE)), Write(0)) == FILED
  {
    var s := Opened(1);
    assert s.shops == [Shop(0, UNVERIFIED)] && !HasRequest(s, 0, BUSINESS_LICENSE);
    assert Next(s, StartSubmit(0, BUSINESS_LICENSE)) == State([Shop(0, UNVERIFIED)], [], [Some(AddPending(0, BUSINESS_LICENSE))]);
  }

  lemma SeeingSteps()
    ensures Next(Next(FILED, StartApprove(0)), StartSubmit(0, PHONE)) == BOTH_SEEN
  {
    assert Next(FILED, StartApprove(0)) == FILED.(tickets := [None, Some(ApproveRow(0, 0))]);
    assert !HasRequest(FILED.(tickets := [None, Some(ApproveRow(0, 0))]), 0, PHONE);
  }

  lemma StaleGrant()
    ensures StaleAcrossThreshold(Next(BOTH_SEEN, Write(1)), Write(2))
  {
    var s := Next(BOTH_SEEN, Write(1));
    assert s.shops == [Shop(250, STANDARD)] && s.tickets[2] == Some(GrantPhone(0, 0));
    assert THRESHOLDS[1] == 250;
  }

  /** A phone that is granted on the score read before a licence was approved sets the tier back. */
  lemma StaleGrantSetsTierBack()
    ensures var run := [StartSubmit(0, BUSINESS_LICENSE), Write(0), StartApprove(0), StartSubmit(0, PHONE), Write(1), Write(2)];
      !TiersMatchThroughout(Opened(1), run)
  {
    hide Next;
    hide StaleAcrossThreshold;
    hide TiersMatch;
    hide Opened;
    var run := [StartSubmit(0, BUSINESS_LICENSE), Write(0), StartApprove(0), StartSubmit(0, PHONE), Write(1), Write(2)];
    OpenedMatches(1);
    FilingSteps();
    SeeingSteps();
    StaleGrant();
    FiveSteps(Opened(1), run);
    TiersMatchExactly(Opened(1), run);
  }

  lemma FiveSteps(s: State, run: seq<Event>)
    requires |run| >= 5
    ensures Exec(s, run[..5]) == Next(Next(Next(Next(Next(s, run[0]), run[1]), run[2]), run[3]), run[4])
  {
    hide Next;
    assert run[..5][..4] == run[..4] && run[..4][..3] == run[..3] && run[..3][..2] == run[..2] && run[..2][..1] == run[..1];
    assert run[..1][..0] == [];
    assert Exec(s, run[..1]) == Next(s, run[0]);
    assert Exec(s, run[..2]) == Next(Exec(s, run[..1]), run[1]);
    assert Exec(s, run[..3]) == Next(Exec(s, run[..2]), run[2]);
    assert Exec(s, run[..4]) == Next(Exec(s, run[..3]), run[3]);
  }

  // ---------------------------------------------------------------- the service

  lemma KeptRight(s: State, start: Event)
    ensures Rows(s) && ScoreMatches(s) && TiersMatch(s) ==>
      var t := Handled(s, start).(tickets := []); Rows(t) && ScoreMatches(t) && TiersMatch(t)
  {
    if Rows(s) && ScoreMatches(s) && TiersMatch(s) {
      HandledKeepsBoth(s, start);
    }
  }

  class VerificationsService {
    var shops: seq<Shop>
    var requests: seq<Request>

    function View(): State
      reads this
    {
      State(shops, requests, [])
    }

    constructor (shops: seq<Shop>, requests: seq<Request>)
      ensures this.shops == shops && this.requests == requests
    {
      this.shops, this.requests := shops, requests;
    }

    /** `findFirst` over the shop's open and approved requests of one kind. */
    method FindExisting(shop: RowId, kind: Kind) returns (found: bool)
      ensures found == HasRequest(View(), shop, kind)
    {
      var i := 0;
      while i < |requests|
        invariant 0 <= i <= |requests|
        invariant !HasRequest(State(shops, requests[..i], []), shop, kind)
      {
        var r := requests[i];
        if r.shop == shop && r.kind == kind && Stands(r) { return true; }
        i := i + 1;
      }
      assert requests[..i] == requests;
      return false;
    }

    /** What every handler keeps. */
    ghost predicate Right()
      reads this
    {
      Rows(View()) && ScoreMatches(View()) && TiersMatch(View())
    }

    method SubmitVerification(shop: RowId, kind: Kind) returns (ok: bool)
      modifies this
      ensures old(Right()) ==> Right()
      ensures !ok ==> shops == old(shops) && requests == old(requests)
      ensures ok ==> |requests| == |old(requests)| + 1 && old(requests) <= requests && HasRequest(View(), shop, kind)
      ensures ok && kind != PHONE ==> shops == old(shops)
      ensures ok && kind == PHONE ==> shop < |shops| == |old(shops)| && shops[shop].trustScore == old(shops)[shop].trustScore + Score(PHONE)
      ensures ok == (shop < |old(shops)| && !HasRequest(old(View()), shop, kind))
      ensures var t := Handled(old(View()), StartSubmit(shop, kind)); shops == t.shops && requests == t.requests
    {
      KeptRight(View(), StartSubmit(shop, kind));
      hide Rows;
      hide ScoreMatches;
      hide TiersMatch;
      hide CalculateTrustTier;
      if shop >= |shops| { return false; }
      var existing := FindExisting(shop, kind);
      if existing { return false; }
      if kind == PHONE {
        var score := Score(PHONE);
        var newTier := CalculateTrustTier(shops[shop].trustScore + score);
        requests := requests + [Request(shop, PHONE, APPROVED, Some(score))];
        assert requests[|requests| - 1].kind == kind;
        shops := shops[shop := Shop(shops[shop].trustScore + score, newTier)];
      } else {
        requests := requests + [Request(shop, kind, PENDING, None)];
        assert requests[|requests| - 1].kind == kind;
      }
      return true;
    }

    method ApproveVerification(row: RowId) returns (ok: bool)
      requires Rows(View())
      modifies this
      ensures old(Right()) ==> Right()
      ensures !ok ==> shops == old(shops) && requests == old(requests)
      ensures ok ==> row < |requests| == |old(requests)| && requests[row].status == APPROVED
      ensures ok ==> requests[row].shop == old(requests)[row].shop < |shops| == |old(shops)|
      ensures ok ==> var shop := old(requests)[row].shop;
        shops[shop].trustScore == old(shops)[shop].trustScore + Score(old(requests)[row].kind)
      ensures ok == (row < |old(requests)| && old(requests)[row].status != APPROVED)
      ensures var t := Handled(old(View()), StartApprove(row)); shops == t.shops && requests == t.requests
    {
      KeptRight(View(), StartApprove(row));
      if row >= |requests| || requests[row].status == APPROVED { return false; }
      var request := requests[row];
      var score := Score(request.kind);
      var newTier := CalculateTrustTier(shops[request.shop].trustScore + score);
      requests := requests[row := request.(status := APPROVED, scoreGranted := Some(score))];
      shops := shops[request.shop := Shop(shops[request.shop].trustScore + score, newTier)];
      return true;
    }

    method RejectVerification(row: RowId) returns (ok: bool)
      modifies this
      ensures old(Right()) ==> Right()
      ensures shops == old(shops) && (!ok ==> requests == old(requests))
      ensures ok ==> row < |requests| && requests[row].status == REJECTED
      ensures ok == (row < |old(requests)| && old(requests)[row].status != APPROVED)
      ensures var t := Handled(old(View()), StartReject(row)); shops == t.shops && requests == t.requests
    {
      KeptRight(View(), StartReject(row));
      if row >= |requests| || requests[row].status == APPROVED { return false; }
      requests := requests[row := requests[row].(status := REJECTED)];
      return true;
    }
  }
}
