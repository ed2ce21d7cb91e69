/** Following `nextCursor` through the reels feed. */
module ReelWalk {
  import opened Optional
  import opened Sorting
  import opened Text
  import opened ReelFeed

  /** Ids a cursor can carry: non-empty, no colon in a post id, and distinct slides within a post. */
  ghost predicate GoodPost(p: Post) {
    && p.id != "" && ':' !in p.id
    && (forall i :: 0 <= i < |Videos(p)| ==> Videos(p)[i].id != "")
    && (forall i, j :: 0 <= i < j < |Videos(p)| ==> Videos(p)[i].id != Videos(p)[j].id)
  }

  ghost predicate GoodRows(rows: seq<Post>) {
    DistinctIds(rows) && forall i :: 0 <= i < |rows| ==> GoodPost(rows[i])
  }

  lemma FeedTail(rows: seq<Post>, from: nat)
    requires from <= |rows|
    ensures from == |rows| ==> Feed(rows[from..]) == []
    ensures from < |rows| ==> Feed(rows[from..]) == (if rows[from].shown then PostItems(rows[from]) else []) + Feed(rows[from + 1..])
  {
    if from == |rows| {
      assert rows[from..] == [];
    } else {
      ShownTail(rows, from);
      if rows[from].shown {
        assert Shown(rows[from..])[0] == rows[from] && Shown(rows[from..])[1..] == Shown(rows[from + 1..]);
      } else {
        assert Shown(rows[from..]) == Shown(rows[from + 1..]);
      }
    }
  }

  /** An entry of the feed is a slide of a shown row, and what follows it is the rest of that row and the rows after. */
  lemma {:induction false} LocateItem(rows: seq<Post>, from: nat, i: nat) returns (at: nat, v: nat)
    requires from <= |rows| && i < |Feed(rows[from..])|
    ensures from <= at < |rows| && rows[at].shown && v < |Videos(rows[at])|
    ensures Feed(rows[from..])[i] == ItemOf(rows[at], Videos(rows[at])[v])
    ensures Feed(rows[from..])[i + 1..] == PostItems(rows[at])[v + 1..] + Feed(rows[at + 1..])
    ensures v <= i && forall k :: i - v <= k <= i ==> Feed(rows[from..])[k] == ItemOf(rows[at], Videos(rows[at])[k - (i - v)])
    decreases |rows| - from
  {
    hide Feed;
    hide ListPostVideos;
    FeedTail(rows, from);
    var own := if rows[from].shown then PostItems(rows[from]) else [];
    if i < |own| {
      at, v := from, i;
    } else {
      at, v := LocateItem(rows, from + 1, i - |own|);
      assert Feed(rows[from..])[i + 1..] == Feed(rows[from + 1..])[i - |own| + 1..];
    }
  }

  lemma SlideIsUnique(post: Post, v: nat)
    requires GoodPost(post) && v < |Videos(post)|
    ensures SlideIndex(Videos(post), Videos(post)[v].id) == v
    ensures AfterSlide(post, Videos(post)[v].id) == PostItems(post)[v + 1..]
  {
    var at := SlideIndex(Videos(post), Videos(post)[v].id);
    assert HasVideo(post, Videos(post)[v].id);
    assert !(v < at);
  }

  /** The key of an entry is a cursor to exactly what follows it. */
  lemma {:induction false} CursorResumesExactly(rows: seq<Post>, i: nat)
    requires GoodRows(rows) && i < |Feed(rows)|
    ensures Remaining(rows, Some(Feed(rows)[i].reelKey)) == Feed(rows)[i + 1..]
  {
    hide Feed;
    hide ListPostVideos;
    assert rows[0..] == rows;
    var at, v := LocateItem(rows, 0, i);
    ParseUndoesBuild(rows[at].id, Videos(rows[at])[v].id);
    PositionIsUnique(rows, at);
    SlideIsUnique(rows[at], v);
  }

  /** A legacy cursor names a post only: it resumes after the first entry of that post. */
  lemma {:induction false} LegacyCursorSkipsOne(rows: seq<Post>, i: nat)
    requires GoodRows(rows) && i < |Feed(rows)| && (i > 0 ==> Feed(rows)[i - 1].postId != Feed(rows)[i].postId)
    ensures Remaining(rows, Some(Feed(rows)[i].postId)) == Feed(rows)[i + 1..]
  {
    hide Feed;
    hide ListPostVideos;
    assert rows[0..] == rows;
    var at, v := LocateItem(rows, 0, i);
    assert v == 0;
    NothingToCut(rows[at].id, ':');
    PositionIsUnique(rows, at);
  }

  lemma FromFirst(feed: seq<ReelItem>, i: nat, own: seq<ReelItem>, rest: seq<ReelItem>)
    requires i < |feed| && own != [] && feed[i] == own[0] && feed[i + 1..] == own[1..] + rest
    ensures feed[i..] == own + rest
    ensures forall k :: 0 <= k < |own| ==> i + k < |feed| && own[k] == feed[i + k]
  {
    assert feed[i..] == [feed[i]] + feed[i + 1..];
    assert own == [own[0]] + own[1..];
    assert forall k :: 0 <= k < |own| ==> feed[i..][k] == own[k];
  }

  lemma NamesNoSlide(post: Post, gone: Id)
    requires forall k :: 0 <= k < |PostItems(post)| ==> PostItems(post)[k].mediaId != gone
    ensures AfterSlide(post, gone) == PostItems(post)
  {
    assert forall k :: 0 <= k < |Videos(post)| ==> PostItems(post)[k].mediaId == Videos(post)[k].id;
  }

  lemma ResumesInside(rows: seq<Post>, at: nat, mediaId: Id)
    requires GoodRows(rows) && at < |rows| && mediaId != ""
    ensures Remaining(rows, Some(rows[at].id + ":" + mediaId)) == FeedFrom(rows, at, AfterSlide(rows[at], mediaId))
  {
    hide FeedFrom;
    hide AfterSlide;
    ParseUndoesBuild(rows[at].id, mediaId);
    PositionIsUnique(rows, at);
  }

  /** A cursor whose slide is gone resumes at the first entry of its post. */
  lemma {:induction false} GoneSlideKeepsThePost(rows: seq<Post>, i: nat, gone: Id)
    requires GoodRows(rows) && i < |Feed(rows)| && (i > 0 ==> Feed(rows)[i - 1].postId != Feed(rows)[i].postId)
    requires gone != "" && forall k :: 0 <= k < |Feed(rows)| && Feed(rows)[k].postId == Feed(rows)[i].postId ==> Feed(rows)[k].mediaId != gone
    ensures Remaining(rows, Some(Feed(rows)[i].postId + ":" + gone)) == Feed(rows)[i..]
  {
    hide Feed;
    hide ListPostVideos;
    assert rows[0..] == rows;
    var at, v := LocateItem(rows, 0, i);
    assert v == 0;
    var own := PostItems(rows[at]);
    FromFirst(Feed(rows), i, own, Feed(rows[at + 1..]));
    assert forall k :: 0 <= k < |own| ==> own[k].postId == rows[at].id;
    NamesNoSlide(rows[at], gone);
    ResumesInside(rows, at, gone);
    hide Remaining;
    hide AfterSlide;
    hide PostItems;
  }

  /** A cursor without a post id, without a slide id after its colon, or of a post that is gone starts over. */
  lemma StrayCursorStartsOver(rows: seq<Post>, cursor: string)
    requires cursor == "" || cursor[0] == ':' || (forall i :: 0 <= i < |rows| ==> rows[i].id != Before(cursor, ':'))
      || (cursor[|cursor| - 1] == ':' && ':' !in cursor[..|cursor| - 1])
    ensures Remaining(rows, Some(cursor)) == Feed(rows)
  {
    hide Feed;
    if cursor != "" && cursor[|cursor| - 1] == ':' && ':' !in cursor[..|cursor| - 1] {
      assert cursor == cursor[..|cursor| - 1] + [':'] + "";
      CutAt(cursor[..|cursor| - 1], ':', "");
    }
  }

  /** The entries follow the order of the table. */
  lemma {:induction false} FeedFollowsTheTable(rows: seq<Post>, i: nat, j: nat)
    requires DistinctIds(rows) && i < j < |Feed(rows)|
    ensures PositionOf(rows, Feed(rows)[i].postId) <= PositionOf(rows, Feed(rows)[j].postId) < |rows|
  {
    hide Feed;
    hide ListPostVideos;
    assert rows[0..] == rows;
    var at, v := LocateItem(rows, 0, i);
    PositionIsUnique(rows, at);
    var k := j - i - 1;
    assert Feed(rows)[i + 1..][k] == Feed(rows)[j];
    var own := PostItems(rows[at])[v + 1..];
    if k < |own| {
      assert Feed(rows)[j] == own[k];
    } else {
      assert Feed(rows)[j] == Feed(rows[at + 1..])[k - |own|];
      var to, w := LocateItem(rows, at + 1, k - |own|);
      PositionIsUnique(rows, to);
    }
  }

  /** No two entries share a key: each slide is one entry. */
  lemma FeedKeysAreDistinct(rows: seq<Post>, i: nat, j: nat)
    requires GoodRows(rows) && i < j < |Feed(rows)|
    ensures Feed(rows)[i].reelKey != Feed(rows)[j].reelKey
  {
    CursorResumesExactly(rows, i);
    CursorResumesExactly(rows, j);
    assert |Feed(rows)[i + 1..]| != |Feed(rows)[j + 1..]|;
  }

  // ---------------------------------------------------------------- page after page

  /** The cursor a client holds after `k` pages: none at first, then what the last page returned. */
  function NthCursor(rows: seq<Post>, limit: nat, k: nat): Option<string> {
    if k == 0 then None else PageAfter(rows, NthCursor(rows, limit, k - 1), limit).nextCursor
  }

  function NthPage(rows: seq<Post>, limit: nat, k: nat): Page {
    PageAfter(rows, NthCursor(rows, limit, k), limit)
  }

  /** How many pages a feed of `n` entries has: one even when it is empty. */
  function PageCount(n: nat, limit: nat): nat
    requires limit >= 1
  {
    if n == 0 then 1 else (n + limit - 1) / limit
  }

  /** Everything the client has received after `k` pages. */
  function Received(rows: seq<Post>, limit: nat, k: nat): seq<ReelItem> {
    if k == 0 then [] else Received(rows, limit, k - 1) + NthPage(rows, limit, k - 1).data
  }

  lemma PageOfTail(rows: seq<Post>, cursor: Option<string>, limit: nat, done: nat)
    requires GoodRows(rows) && limit >= 1 && done <= |Feed(rows)|
    requires Remaining(rows, cursor) == Feed(rows)[done..]
    ensures var page := PageAfter(rows, cursor, limit);
      var end := if done + limit <= |Feed(rows)| then done + limit else |Feed(rows)|;
      && page.data == Feed(rows)[done..end]
      && (page.hasMore <==> end < |Feed(rows)|)
      && (page.nextCursor.Some? <==> end < |Feed(rows)|)
      && (page.nextCursor.Some? ==> Remaining(rows, page.nextCursor) == Feed(rows)[end..])
  {
    hide Remaining;
    hide Feed;
    hide GoodRows;
    var page := PageAfter(rows, cursor, limit);
    var end := if done + limit <= |Feed(rows)| then done + limit else |Feed(rows)|;
    assert page.data == Feed(rows)[done..end];
    if end < |Feed(rows)| {
      CursorResumesExactly(rows, end - 1);
    }
  }

  /** Page k of the walk starts where k full pages end. */
  lemma {:induction false} WalkPosition(rows: seq<Post>, limit: nat, k: nat, done: nat)
    requires GoodRows(rows) && limit >= 1 && done == k * limit && (k == 0 || done < |Feed(rows)|)
    ensures done <= |Feed(rows)|
    ensures Remaining(rows, NthCursor(rows, limit, k)) == Feed(rows)[done..]
    ensures Received(rows, limit, k) == Feed(rows)[..done]
  {
    hide Remaining;
    hide Feed;
    hide GoodRows;
    hide PageAfter;
    if k == 0 {
      NoCursor(rows);
    } else {
      var before := done - limit;
      assert before == (k - 1) * limit;
      WalkPosition(rows, limit, k - 1, before);
      PageOfTail(rows, NthCursor(rows, limit, k - 1), limit, before);
      assert Feed(rows)[..before] + Feed(rows)[before..done] == Feed(rows)[..done];
    }
  }

  lemma NoCursor(rows: seq<Post>)
    ensures Remaining(rows, None) == Feed(rows) == Feed(rows)[0..]
  {
  }

  lemma LastPage(n: nat, limit: nat)
    requires limit >= 1
    ensures var last := PageCount(n, limit) - 1;
      last >= 0 && (last == 0 || last * limit < n) && n <= last * limit + limit
  {
    if n > 0 {
      var pages := (n + limit - 1) / limit;
      assert n + limit - 1 == pages * limit + (n + limit - 1) % limit;
      assert (pages - 1) * limit == pages * limit - limit;
    }
  }

  lemma {:induction false} BeforeLastPage(n: nat, limit: nat, k: nat)
    requires limit >= 1 && k + 1 < PageCount(n, limit)
    ensures k * limit + limit < n
  {
    LastPage(n, limit);
    var last := PageCount(n, limit) - 1;
    assert (k + 1) * limit <= last * limit by {
      Monotone(k + 1, last, limit);
    }
    assert (k + 1) * limit == k * limit + limit;
  }

  lemma Monotone(a: nat, b: nat, c: nat)
    requires a <= b
    ensures a * c <= b * c
  {
  }

  lemma {:induction false} OnlyLastPageEnds(rows: seq<Post>, limit: nat, k: nat)
    requires GoodRows(rows) && limit >= 1 && k < PageCount(|Feed(rows)|, limit)
    ensures NthPage(rows, limit, k).nextCursor.Some? <==> k + 1 < PageCount(|Feed(rows)|, limit)
  {
    hide Remaining;
    hide Feed;
    hide GoodRows;
    hide PageAfter;
    hide PageCount;
    LastPage(|Feed(rows)|, limit);
    if k + 1 < PageCount(|Feed(rows)|, limit) {
      BeforeLastPage(|Feed(rows)|, limit, k);
    }
    WalkPosition(rows, limit, k, k * limit);
    PageOfTail(rows, NthCursor(rows, limit, k), limit, k * limit);
  }

  /**
   * On an unchanged database a client that follows `nextCursor` gets every video slide once, in
   * feed order, in max(1, ceil(n / limit)) pages: each page but the last carries a cursor, the
   * last carries none.
   */
  lemma {:induction false} WalkVisitsEverySlideOnce(rows: seq<Post>, limit: nat)
    requires GoodRows(rows) && limit >= 1
    ensures var pages := PageCount(|Feed(rows)|, limit);
      && pages >= 1
      && Received(rows, limit, pages) == Feed(rows)
      && (forall k :: 0 <= k < pages ==> (NthPage(rows, limit, k).nextCursor.Some? <==> k + 1 < pages))
  {
    hide Remaining;
    hide Feed;
    hide GoodRows;
    hide PageAfter;
    hide PageCount;
    var n := |Feed(rows)|;
    var pages := PageCount(n, limit);
    LastPage(n, limit);
    forall k | 0 <= k < pages ensures NthPage(rows, limit, k).nextCursor.Some? <==> k + 1 < pages {
      OnlyLastPageEnds(rows, limit, k);
    }
    LastPageCompletes(rows, limit, pages - 1, (pages - 1) * limit);
  }

  lemma {:induction false} LastPageCompletes(rows: seq<Post>, limit: nat, last: nat, done: nat)
    requires GoodRows(rows) && limit >= 1 && done == last * limit
    requires (last == 0 || done < |Feed(rows)|) && |Feed(rows)| <= done + limit
    ensures Received(rows, limit, last + 1) == Feed(rows)
  {
    hide Remaining;
    hide Feed;
    hide GoodRows;
    hide PageAfter;
    WalkPosition(rows, limit, last, done);
    PageOfTail(rows, NthCursor(rows, limit, last), limit, done);
    assert Feed(rows)[..done] + Feed(rows)[done..|Feed(rows)|] == Feed(rows);
  }

  /** A post id with a colon breaks the walk: the first page's cursor points nowhere and starts the feed over. */
  lemma ColonInPostIdRestarts()
    ensures var rows := [Post("a:b", [Media("m", true, 0, None), Media("n", true, 1, None)], true)];
      |Feed(rows)| == 2 && Remaining(rows, Some(Feed(rows)[0].reelKey)) == Feed(rows)
  {
    var m, n := Media("m", true, 0, None), Media("n", true, 1, None);
    var post := Post("a:b", [m, n], true);
    var rows := [post];
    assert rows[1..] == [];
    assert post.media[1..] == [n] && [n][1..] == [];
    assert Filter([n], IsVideo) == [n] && Filter(post.media, IsVideo) == [m, n];
    assert [m, n][1..] == [n];
    assert Sort([n], ByOrder) == [n] && Sort([m, n], ByOrder) == [m, n];
    assert rows[0..] == rows;
    FeedTail(rows, 0);
    FeedTail(rows, 1);
    var key := BuildReelKey("a:b", "m");
    assert key == "a:b:m";
    assert key[..1] == "a";
    assert key == "a" + [':'] + "b:m";
    CutAt("a", ':', "b:m");
    assert |Before(key, ':')| == 1;
    assert ParseReelKey(key) == Slide("a", "b:m");
  }
}
