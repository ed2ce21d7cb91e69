/** Paid payouts: a row that an admin has marked paid should stay, and when a late balance check deletes it. */
module PaidPayouts {
  import opened Optional
  import opened AdBilling
  import opened Wallet
  import opened WalletTheorems
  import opened RejectedPayouts

  predicate Present(s: State, row: RowId) { row < |s.payouts| && s.payouts[row].Some? }

  predicate IsPaid(s: State, row: RowId) { Present(s, row) && s.payouts[row].value.status == PayoutPaid }

  /** The row was marked paid at this or an earlier state of the run. */
  ghost predicate WasPaid(s: State, run: seq<Event>, row: RowId) {
    IsPaid(Exec(s, run), row) || (run != [] && WasPaid(s, run[..|run| - 1], row))
  }

  ghost predicate PaidRowsStay(s: State, run: seq<Event>) {
    forall row: RowId :: WasPaid(s, run, row) ==> Present(Exec(s, run), row)
  }

  /** The row that the event's compensating transaction deletes, if it is one. */
  function Restored(s: State, e: Event): Option<RowId> {
    if !e.Resume? || e.frame >= |s.frames| || !s.frames[e.frame].PayoutAtRestore? then None
    else
      var f := s.frames[e.frame];
      if f.user in s.Balances() && Present(s, f.row) then Some(f.row) else None
  }

  /** No compensating transaction of the run is for a payout that was marked paid. */
  ghost predicate NoPaidRestored(s: State, run: seq<Event>) {
    run != [] ==>
      var most := run[..|run| - 1];
      var gone := Restored(Exec(s, most), run[|run| - 1]);
      NoPaidRestored(s, most) && (gone.Some? ==> !WasPaid(s, most, gone.value))
  }

  lemma RestoreRemovesItsRow(s: State, e: Event, row: RowId)
    requires e.Resume? && e.frame < |s.frames| && s.frames[e.frame].PayoutAtRestore? && row < |s.payouts|
    ensures |Next(s, e).payouts| == |s.payouts|
    ensures Present(Next(s, e), row) <==> Present(s, row) && Restored(s, e) != Some(row)
  {
  }

  lemma StatusKeepsRows(s: State, changed: RowId, status: PayoutStatus, row: RowId)
    requires row < |s.payouts|
    ensures |WithPayoutStatus(s, changed, status).payouts| == |s.payouts|
    ensures Present(WithPayoutStatus(s, changed, status), row) <==> Present(s, row)
  {
  }

  /** A row goes with the compensating transaction that names it and with nothing else, and never comes back. */
  lemma OnlyRestoringRemoves(s: State, e: Event, row: RowId)
    requires row < |s.payouts|
    ensures |s.payouts| <= |Next(s, e).payouts|
    ensures Present(Next(s, e), row) <==> Present(s, row) && Restored(s, e) != Some(row)
  {
    if e.Resume? && e.frame < |s.frames| {
      var f := s.frames[e.frame];
      if f.PayoutAtRestore? {
        RestoreRemovesItsRow(s, e, row);
      } else if f.PayoutAtReserve? || f.ApproveAtWrite? {
        ReserveOrApprove(s, e.frame, e.io);
        hide Wallet.ResumeStep;
        if f.ApproveAtWrite? {
          StatusKeepsRows(s, f.row, PayoutApproved, row);
        }
      } else {
        OthersKeepPayouts(s, e.frame, e.io);
        hide Wallet.ResumeStep;
      }
    } else if e.RejectPayout? {
      StatusKeepsRows(s, e.row, PayoutRejected, row);
    } else if e.MarkPaid? {
      StatusKeepsRows(s, e.row, PayoutPaid, row);
    }
  }

  lemma {:induction false} PaidRowsExist(s: State, run: seq<Event>, row: RowId)
    requires WasPaid(s, run, row)
    ensures row < |Exec(s, run).payouts|
  {
    if !IsPaid(Exec(s, run), row) {
      var most := run[..|run| - 1];
      PaidRowsExist(s, most, row);
      hide Wallet.Next;
      OnlyRestoringRemoves(Exec(s, most), run[|run| - 1], row);
    }
  }

  /**
   * Along every run each payout that was ever marked paid still has its row exactly if no compensating
   * transaction is for such a payout.
   */
  lemma {:induction false} PaidRowsStayExactly(s: State, run: seq<Event>)
    ensures PaidRowsStay(s, run) <==> NoPaidRestored(s, run)
  {
    if run != [] {
      hide Wallet.Next;
      hide Restored;
      var most, last := run[..|run| - 1], run[|run| - 1];
      var before := Exec(s, most);
      PaidRowsStayExactly(s, most);
      forall row: RowId | WasPaid(s, most, row)
        ensures Present(Exec(s, run), row) <==> Present(before, row) && Restored(before, last) != Some(row)
        ensures WasPaid(s, run, row)
      {
        PaidRowsExist(s, most, row);
        OnlyRestoringRemoves(before, last, row);
      }
      assert PaidRowsStay(s, run) <==>
        forall row: RowId :: WasPaid(s, most, row) ==> Present(before, row) && Restored(before, last) != Some(row);
    }
  }

  // ---------------------------------------------------------------- a payout that is paid and deleted

  lemma Overdrawn(io: Io)
    ensures var e := Resume(0, io); var t := Exec(Opened(map["u" := 10_000]), [StartPayout("u", 50_000, "IR"), e, e]);
      && t.frames == [PayoutAtCheck("u", 50_000, 0)] && t.Balances() == map["u" := -40_000]
      && t.payouts == [Some(Payout("u", 50_000, "IR", PayoutPending))]
  {
    var s := Opened(map["u" := 10_000]);
    var arrived := Suspend(s, PayoutAtCount("u", 50_000, "IR"));
    assert Next(s, StartPayout("u", 50_000, "IR")) == arrived && !HasOpenPayout(arrived, "u");
    hide Wallet.Next;
    ThreeSteps(s, [StartPayout("u", 50_000, "IR"), Resume(0, io), Resume(0, io)]);
    CountGoesOn(arrived, 0, "u", 50_000, "IR", io);
    ReserveGoesOn(arrived.At(0, PayoutAtReserve("u", 50_000, "IR")), 0, "u", 50_000, "IR", io);
  }

  lemma PaidAndRestored(t: State, io: Io)
    requires t.frames == [PayoutAtCheck("u", 50_000, 0)] && t.Balances() == map["u" := -40_000]
    requires t.payouts == [Some(Payout("u", 50_000, "IR", PayoutPending))]
    ensures var e := Resume(0, io); var paid := Next(t, MarkPaid(0)); var after := Next(Next(paid, e), e);
      && IsPaid(paid, 0)
      && after.payouts == [None] && after.Balances() == map["u" := 10_000] && after.frames == [Done(InsufficientFunds)]
  {
    var paid := WithPayoutStatus(t, 0, PayoutPaid);
    assert Next(t, MarkPaid(0)) == paid;
    CheckGoesOn(paid, 0, "u", 50_000, 0, io);
    var checked := paid.At(0, PayoutAtRestore("u", 50_000, 0));
    assert CheckStep(paid, 0, "u", 50_000, 0) == checked;
    assert Next(checked, Resume(0, io)) == RestoreStep(checked, 0, "u", 50_000, 0);
  }

  /** An uncovered payout that is marked paid before its balance check loses its row, and the money comes back. */
  lemma PaidRowIsDeleted()
    ensures var e := Resume(0, Io(NotVerified, 0));
      var run := [StartPayout("u", 50_000, "IR"), e, e] + [MarkPaid(0), e, e];
      var s := Opened(map["u" := 10_000]);
      && Exec(s, run).payouts == [None] && Exec(s, run).Balances() == map["u" := 10_000]
      && IsPaid(Exec(s, run[..4]), 0) && !PaidRowsStay(s, run)
  {
    hide Wallet.Next;
    hide Opened;
    var io := Io(NotVerified, 0);
    var e := Resume(0, io);
    var s := Opened(map["u" := 10_000]);
    var asked, rest := [StartPayout("u", 50_000, "IR"), e, e], [MarkPaid(0), e, e];
    var run := asked + rest;
    Overdrawn(io);
    var t := Exec(s, asked);
    PaidAndRestored(t, io);
    ThreeSteps(t, rest);
    ExecConcat(s, asked, rest);
    assert run[..4][..3] == asked && run[..4][3] == MarkPaid(0);
    assert Exec(s, run[..4]) == Next(t, MarkPaid(0));
    assert run[..6] == run && run[..6][..5] == run[..5] && run[..5][..4] == run[..4];
    assert WasPaid(s, run[..4], 0) && WasPaid(s, run[..5], 0) && WasPaid(s, run, 0);
  }
}
