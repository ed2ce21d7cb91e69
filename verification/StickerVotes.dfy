/** Votes on a story's poll or quiz sticker, and the summary its owner sees. */
module StickerVotes {
  import opened Optional
  import opened Sums
  import opened Sorting

  type User = string

  /** A response row: one per user and sticker. */
  datatype Row = Row(user: User, index: nat)

  datatype Ballot = Ballot(user: User, voteIndex: Option<int>)

  /** How many options a vote may name; a sticker without an options list takes two. */
  function OptionCount(options: Option<nat>): nat { if options.Some? then options.value else 2 }

  predicate Accepts(options: Option<nat>, b: Ballot) {
    b.voteIndex.Some? && 0 <= b.voteIndex.value < OptionCount(options)
  }

  /** The upsert on the unique pair of sticker and user. */
  function Upsert(rows: seq<Row>, row: Row): seq<Row> {
    if rows == [] then [row]
    else if rows[0].user == row.user then [row] + rows[1..]
    else [rows[0]] + Upsert(rows[1..], row)
  }

  function Vote(rows: seq<Row>, options: Option<nat>, b: Ballot): seq<Row> {
    if Accepts(options, b) then Upsert(rows, Row(b.user, b.voteIndex.value)) else rows
  }

  function Run(options: Option<nat>, ballots: seq<Ballot>): seq<Row> {
    if ballots == [] then [] else Vote(Run(options, ballots[..|ballots| - 1]), options, ballots[|ballots| - 1])
  }

  // ---------------------------------------------------------------- one row per voter, holding the last vote

  /** What the user voted last among the accepted ballots. */
  function LastVote(options: Option<nat>, ballots: seq<Ballot>, user: User): Option<nat> {
    if ballots == [] then None
    else
      var last := ballots[|ballots| - 1];
      if last.user == user && Accepts(options, last) then Some(last.voteIndex.value)
      else LastVote(options, ballots[..|ballots| - 1], user)
  }

  function Voters(options: Option<nat>, ballots: seq<Ballot>): set<User> {
    set i | 0 <= i < |ballots| && Accepts(options, ballots[i]) :: ballots[i].user
  }

  ghost predicate OneRowEach(rows: seq<Row>) {
    forall i, j :: 0 <= i < j < |rows| ==> rows[i].user != rows[j].user
  }

  lemma {:induction false} UpsertRows(rows: seq<Row>, row: Row)
    requires OneRowEach(rows)
    ensures OneRowEach(Upsert(rows, row))
    ensures forall r :: r in Upsert(rows, row) <==> r == row || (r in rows && r.user != row.user)
  {
    if rows != [] {
      UpsertRows(rows[1..], row);
      var after := Upsert(rows, row);
      assert forall r :: r in rows[1..] ==> r.user != rows[0].user;
      assert rows == [rows[0]] + rows[1..];
      if rows[0].user != row.user {
        assert forall k :: 1 <= k < |after| ==> after[k] in Upsert(rows[1..], row);
      }
    }
  }

  lemma {:induction false} UpsertAt(rows: seq<Row>, row: Row, i: nat)
    requires i <= |rows| && (forall k :: 0 <= k < i ==> rows[k].user != row.user)
    requires i < |rows| ==> rows[i].user == row.user
    ensures Upsert(rows, row) == if i < |rows| then rows[i := row] else rows + [row]
  {
    if i > 0 {
      UpsertAt(rows[1..], row, i - 1);
    }
  }

  /** After any run of ballots the table holds exactly each voter's last accepted vote. */
  lemma {:induction false} RowsAreLastVotes(options: Option<nat>, ballots: seq<Ballot>)
    ensures OneRowEach(Run(options, ballots))
    ensures forall u, i: nat :: Row(u, i) in Run(options, ballots) <==> LastVote(options, ballots, u) == Some(i)
  {
    if ballots != [] {
      var most, last := ballots[..|ballots| - 1], ballots[|ballots| - 1];
      RowsAreLastVotes(options, most);
      if Accepts(options, last) {
        UpsertRows(Run(options, most), Row(last.user, last.voteIndex.value));
      }
    }
  }

  lemma {:induction false} VotersVoted(options: Option<nat>, ballots: seq<Ballot>, user: User)
    ensures LastVote(options, ballots, user).Some? <==> user in Voters(options, ballots)
    ensures LastVote(options, ballots, user).Some? ==> LastVote(options, ballots, user).value < OptionCount(options)
  {
    if ballots != [] {
      var n := |ballots| - 1;
      VotersVoted(options, ballots[..n], user);
      assert forall i :: 0 <= i < n ==> ballots[..n][i] == ballots[i];
    }
  }

  function Users(rows: seq<Row>): set<User> { set r | r in rows :: r.user }

  lemma UsersOfCons(row: Row, rows: seq<Row>)
    ensures Users([row] + rows) == {row.user} + Users(rows)
  {
    forall u ensures u in Users([row] + rows) <==> u in {row.user} + Users(rows) {
      if u == row.user {
        assert row in [row] + rows;
      }
      if u in Users(rows) {
        var r :| r in rows && r.user == u;
        assert r in [row] + rows;
      }
    }
  }

  lemma {:induction false} RowsCountUsers(rows: seq<Row>)
    requires OneRowEach(rows)
    ensures |Users(rows)| == |rows|
  {
    if rows != [] {
      var first, rest := rows[0], rows[1..];
      assert first.user !in Users(rest);
      RowsCountUsers(rest);
      hide Users;
      assert rows == [first] + rest;
      UsersOfCons(first, rest);
    }
  }

  /** There are as many rows as distinct voters. */
  lemma RowsAreVoters(options: Option<nat>, ballots: seq<Ballot>)
    ensures |Run(options, ballots)| == |Voters(options, ballots)|
    ensures forall r :: r in Run(options, ballots) ==> r.index < OptionCount(options)
  {
    var rows := Run(options, ballots);
    RowsAreLastVotes(options, ballots);
    RowsCountUsers(rows);
    forall u ensures u in Voters(options, ballots) <==> u in Users(rows) {
      VotersVoted(options, ballots, u);
      if LastVote(options, ballots, u).Some? {
        assert Row(u, LastVote(options, ballots, u).value) in rows;
      }
      if r :| r in rows && r.user == u {
        assert r == Row(u, r.index);
      }
    }
    assert Voters(options, ballots) == Users(rows);
    forall r | r in rows ensures r.index < OptionCount(options) {
      assert r == Row(r.user, r.index);
      VotersVoted(options, ballots, r.user);
    }
  }

  // ---------------------------------------------------------------- the summary

  function For(k: nat): Row -> bool { (r: Row) => r.index == k }

  /** How many rows name option k. */
  function CountOf(rows: seq<Row>, k: nat): nat { |Filter(rows, For(k))| }

  function Counts(rows: seq<Row>, n: nat): seq<int> { seq(n, k requires 0 <= k < n => CountOf(rows, k)) }

  const Self: int -> int := (c: int) => c

  function Total(rows: seq<Row>, n: nat): int { Sum(Counts(rows, n), Self) }

  /** `Math.round(c / total * 100)`, halves up. */
  function Percent(c: int, total: int): int { if total == 0 then 0 else if total > 0 then (200 * c + total) / (2 * total) else 0 }

  function Percents(counts: seq<int>, total: int): seq<int> {
    seq(|counts|, k requires 0 <= k < |counts| => Percent(counts[k], total))
  }

  lemma {:induction false} FilterAppend(rows: seq<Row>, row: Row, k: nat)
    ensures CountOf(rows + [row], k) == CountOf(rows, k) + if row.index == k then 1 else 0
  {
    FilterConcat(rows, [row], For(k));
  }

  lemma CountsAppend(rows: seq<Row>, row: Row, n: nat)
    ensures Counts(rows + [row], n) ==
      if row.index < n then Counts(rows, n)[row.index := CountOf(rows, row.index) + 1] else Counts(rows, n)
  {
    forall k | 0 <= k < n ensures CountOf(rows + [row], k) == CountOf(rows, k) + if row.index == k then 1 else 0 {
      FilterAppend(rows, row, k);
    }
  }

  /** The counts add up to the rows whose option is on the list. */
  lemma {:induction false} TotalOnList(rows: seq<Row>, n: nat)
    ensures Total(rows, n) == |Filter(rows, (r: Row) => r.index < n)|
  {
    if rows == [] {
      SumZero(Counts(rows, n), Self);
    } else {
      var most, last := rows[..|rows| - 1], rows[|rows| - 1];
      assert rows == most + [last];
      TotalOnList(most, n);
      CountsAppend(most, last, n);
      FilterConcat(most, [last], (r: Row) => r.index < n);
      if last.index < n {
        SumUpdate(Counts(most, n), last.index, CountOf(most, last.index) + 1, Self);
      }
    }
  }

  /**
   * After any run of ballots the summary's total is the number of distinct voters exactly if the
   * sticker has an options list, or nobody voted: votes on a sticker without a list are stored but
   * never counted.
   */
  lemma TotalIsVotersExactly(options: Option<nat>, ballots: seq<Ballot>)
    ensures var listed := if options.Some? then options.value else 0;
      Total(Run(options, ballots), listed) == |Voters(options, ballots)| <==> (options.Some? || Voters(options, ballots) == {})
  {
    var rows := Run(options, ballots);
    RowsAreVoters(options, ballots);
    if options.Some? {
      TotalOnList(rows, options.value);
      FilterAll(rows, (r: Row) => r.index < options.value);
    } else {
      TotalOnList(rows, 0);
      FilterNone(rows, (r: Row) => r.index < 0);
    }
  }

  /** One vote on a sticker without an options list: stored, never counted. */
  lemma VoteWithoutOptionsIsLost()
    ensures var ballots := [Ballot("u", Some(0))];
      Voters(None, ballots) == {"u"} && Total(Run(None, ballots), 0) == 0
  {
    var ballots := [Ballot("u", Some(0))];
    assert Accepts(None, ballots[0]);
    assert Voters(None, ballots) == {"u"} by {
      forall u ensures u in Voters(None, ballots) <==> u == "u" {
        if u == "u" {
          assert ballots[0].user == u;
        }
      }
    }
    assert Counts(Run(None, ballots), 0) == [];
  }

  lemma ChosenBy(rows: seq<Row>, k: nat, user: User)
    ensures user in Users(Filter(rows, For(k))) <==> Row(user, k) in rows
  {
    var chosen := Filter(rows, For(k));
    if Row(user, k) in rows {
      assert Row(user, k) in chosen;
    }
    if user in Users(chosen) {
      var r :| r in chosen && r.user == user;
      assert r == Row(user, k);
    }
  }

  function Fans(options: Option<nat>, ballots: seq<Ballot>, k: nat): set<User> {
    set u | u in Voters(options, ballots) && LastVote(options, ballots, u) == Some(k)
  }

  /** Each option's count is the number of users whose last accepted vote names it. */
  lemma CountsAreLastVotes(options: Option<nat>, ballots: seq<Ballot>, k: nat)
    ensures CountOf(Run(options, ballots), k) == |Fans(options, ballots, k)|
  {
    var rows := Run(options, ballots);
    RowsAreLastVotes(options, ballots);
    FilterKeepsDistinct(rows, For(k), (r: Row) => r.user);
    RowsCountUsers(Filter(rows, For(k)));
    hide Users;
    hide LastVote;
    hide Run;
    hide Filter;
    hide Voters;
    hide OneRowEach;
    forall u ensures u in Fans(options, ballots, k) <==> u in Users(Filter(rows, For(k))) {
      VotersVoted(options, ballots, u);
      ChosenBy(rows, k, u);
    }
    hide Fans;
    assert Fans(options, ballots, k) == Users(Filter(rows, For(k)));
  }

  lemma PercentIsClose(c: int, total: int)
    requires total > 0
    ensures Close(Percent(c, total), c, 1, total)
  {
    var p := Percent(c, total);
    assert 2 * total * p <= 200 * c + total < 2 * total * p + 2 * total;
  }

  /** `sum` percent is within `n` halves of the share that `votes` has of `total`. */
  predicate Close(sum: int, votes: int, n: int, total: int) {
    var gap := 2 * (total * sum) - 200 * votes;
    gap <= n * total && 0 - gap <= n * total
  }

  lemma CloseAdds(sum: int, votes: int, n: int, p: int, c: int, total: int)
    requires Close(sum, votes, n, total) && Close(p, c, 1, total)
    ensures Close(sum + p, votes + c, n + 1, total)
  {
    assert total * (sum + p) == total * sum + total * p;
    assert (n + 1) * total == n * total + total;
  }

  lemma {:induction false} PercentsAreClose(counts: seq<int>, total: int)
    requires total > 0
    ensures Close(Sum(Percents(counts, total), Self), Sum(counts, Self), |counts|, total)
  {
    if counts == [] {
      assert Percents(counts, total) == [];
    } else {
      hide Percent;
      hide Close;
      var most, c := counts[..|counts| - 1], counts[|counts| - 1];
      PercentsAreClose(most, total);
      PercentIsClose(c, total);
      assert Percents(counts, total) == Percents(most, total) + [Percent(c, total)];
      SumAppend(Percents(most, total), Percent(c, total), Self);
      CloseAdds(Sum(Percents(most, total), Self), Sum(most, Self), |most|, Percent(c, total), c, total);
    }
  }

  /** When anyone's vote is counted the rounded percentages add up to 100 within half the number of options. */
  lemma PercentsSumToHundred(rows: seq<Row>, n: nat)
    requires Total(rows, n) > 0
    ensures var sum := Sum(Percents(Counts(rows, n), Total(rows, n)), Self);
      2 * (sum - 100) <= n && 2 * (100 - sum) <= n
  {
    var counts, total := Counts(rows, n), Total(rows, n);
    PercentsAreClose(counts, total);
    WithinHalf(Sum(Percents(counts, total), Self), n, total);
  }

  lemma WithinHalf(sum: int, n: int, total: int)
    requires total > 0 && Close(sum, total, n, total)
    ensures 2 * (sum - 100) <= n && 2 * (100 - sum) <= n
  {
    DivideOut(2 * (sum - 100), n, total);
    DivideOut(2 * (100 - sum), n, total);
  }

  lemma DivideOut(x: int, n: int, total: int)
    requires total > 0
    ensures x * total <= n * total ==> x <= n
  {
    assert (x - n) * total == x * total - n * total;
    if x > n {
      assert (x - n) * total >= 1;
    }
  }

  /** The bound is reached: eight equal shares of 12.5 round to 13 each. */
  lemma BoundIsReached()
    ensures Percents([1, 1, 1, 1, 1, 1, 1, 1], 8) == seq(8, k => 13)
    ensures Sum(seq(8, k => 13), Self) == 104
  {
    SumScaled(seq(8, k => 13), Self, (c: int) => 1, 13);
    SumOnes(seq(8, k => 13));
  }

  lemma {:induction false} SumOnes(s: seq<int>)
    ensures Sum(s, (c: int) => 1) == |s|
  {
    if s != [] {
      SumOnes(s[..|s| - 1]);
    }
  }

  // ---------------------------------------------------------------- the service

  class StickerBox {
    const options: Option<nat>
    var rows: seq<Row>

    constructor (options: Option<nat>)
      ensures this.options == options && rows == []
    {
      this.options := options;
      rows := [];
    }

    /** Find the user's row and rewrite it, or add one. */
    method CastVote(b: Ballot) returns (ok: bool)
      modifies this
      ensures ok == Accepts(options, b)
      ensures ok <==> b.voteIndex.Some? && 0 <= b.voteIndex.value < match options case Some(n) => n case None => 2
      ensures rows == Vote(old(rows), options, b)
    {
      var count := if options.Some? then options.value else 2;
      if b.voteIndex.None? || b.voteIndex.value < 0 || b.voteIndex.value >= count { return false; }
      var row := Row(b.user, b.voteIndex.value);
      var i := 0;
      while i < |rows| && rows[i].user != b.user
        invariant 0 <= i <= |rows|
        invariant forall k :: 0 <= k < i ==> rows[k].user != b.user
      {
        i := i + 1;
      }
      UpsertAt(rows, row, i);
      if i < |rows| {
        rows := rows[i := row];
      } else {
        rows := rows + [row];
      }
      return true;
    }
  }

  /** One counter per option, moved by each response on the list. */
  method CountVotes(responses: seq<Row>, n: nat) returns (counts: seq<int>)
    ensures counts == Counts(responses, n)
  {
    hide Filter;
    counts := seq(n, k => 0);
    var i := 0;
    assert counts == Counts(responses[..0], n) by {
      NothingCounted(n);
      assert responses[..0] == [];
    }
    while i < |responses|
      invariant 0 <= i <= |responses|
      invariant counts == Counts(responses[..i], n)
    {
      var v := responses[i].index;
      assert responses[..i + 1] == responses[..i] + [responses[i]];
      CountsAppend(responses[..i], responses[i], n);
      if v < |counts| {
        counts := counts[v := counts[v] + 1];
      }
      i := i + 1;
    }
    assert responses[..i] == responses;
  }

  lemma NothingCounted(n: nat)
    ensures Counts([], n) == seq(n, k => 0)
  {
  }

  method AddUp(counts: seq<int>) returns (total: int)
    ensures total == Sum(counts, Self)
  {
    total := 0;
    var k := 0;
    while k < |counts|
      invariant 0 <= k <= |counts|
      invariant total == Sum(counts[..k], Self)
    {
      assert counts[..k + 1] == counts[..k] + [counts[k]];
      SumAppend(counts[..k], counts[k], Self);
      total := total + counts[k];
      k := k + 1;
    }
    assert counts[..k] == counts;
  }

  /** The nearest percent, halves up; nothing of nothing is zero. */
  lemma PercentExactly(c: int, total: int)
    requires c >= 0 && total >= 0
    ensures if total == 0 then Percent(c, total) == 0 else
      2 * total * Percent(c, total) <= 200 * c + total < 2 * total * (Percent(c, total) + 1)
  {
  }

  method ComputeSummary(options: Option<nat>, responses: seq<Row>) returns (counts: seq<int>, percents: seq<int>, total: int)
    ensures var n := if options.Some? then options.value else 0;
      counts == Counts(responses, n) && total == Total(responses, n) && percents == Percents(counts, total)
  {
    counts := CountVotes(responses, if options.Some? then options.value else 0);
    total := AddUp(counts);
    percents := Percents(counts, total);
  }
}
