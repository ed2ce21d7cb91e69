/**
 * The reels feed: a cursor codec, the flattening of posts into one entry per video slide, and
 * the batched page loop that must behave like "flatten, drop up to the cursor, take the limit".
 */
module ReelFeed {
  import opened Optional
  import opened Sorting
  import opened Text

  type Id = string

  datatype Media = Media(id: Id, isVideo: bool, order: int, duration: Option<nat>)
  /** A post row; `shown` says whether it matches the feed's filter. */
  datatype Post = Post(id: Id, media: seq<Media>, shown: bool)
  datatype ReelItem = ReelItem(reelKey: string, postId: Id, mediaId: Id, duration: Option<nat>)
  datatype Page = Page(data: seq<ReelItem>, nextCursor: Option<string>, hasMore: bool)

  // ---------------------------------------------------------------- the cursor codec

  datatype ParsedKey = Slide(postId: Id, mediaId: Id) | Legacy(postId: Id) | Malformed

  function BuildReelKey(postId: Id, mediaId: Id): string { postId + ":" + mediaId }

  function ParseReelKey(key: string): ParsedKey {
    if key == "" then Malformed
    else
      var idx := IndexOf(key, ':');
      if idx == |key| then Legacy(key)
      else if idx == 0 then Malformed
      else if key[idx + 1..] == "" then Malformed
      else Slide(key[..idx], key[idx + 1..])
  }

  /** Parsing undoes building exactly when both ids are non-empty and the post id has no colon. */
  lemma ParseUndoesBuild(postId: Id, mediaId: Id)
    ensures ParseReelKey(BuildReelKey(postId, mediaId)) == Slide(postId, mediaId)
       <==> postId != "" && mediaId != "" && ':' !in postId
  {
    var key := BuildReelKey(postId, mediaId);
    assert key == postId + [':'] + mediaId;
    if ':' !in postId {
      CutAt(postId, ':', mediaId);
      assert |Before(key, ':')| == |postId|;
    }
  }

  // ---------------------------------------------------------------- one post, then the whole feed

  const ByOrder: (Media, Media) -> bool := (a: Media, b: Media) => a.order < b.order

  const IsVideo: Media -> bool := (m: Media) => m.isVideo

  function ListPostVideos(media: seq<Media>): seq<Media> { Sort(Filter(media, IsVideo), ByOrder) }

  /** The list is the one that drops images, is ordered by `order`, and keeps the stored order of ties. */
  lemma VideosAreTheStableOrder(media: seq<Media>, other: seq<Media>)
    ensures var videos := ListPostVideos(media);
      && (forall m :: m in videos <==> m in media && m.isVideo)
      && (forall i, j :: 0 <= i < j < |videos| ==> videos[i].order <= videos[j].order)
      && (Sorted(other, ByOrder)
          && (forall m :: Filter(other, Tied(ByOrder, m)) == Filter(Filter(media, IsVideo), Tied(ByOrder, m)))
          ==> other == videos)
  {
    var kept := Filter(media, IsVideo);
    var videos := ListPostVideos(media);
    SortIsStable(kept, ByOrder);
    SortMembers(kept, ByOrder);
    forall i, j | 0 <= i < j < |videos| ensures videos[i].order <= videos[j].order {
      assert !ByOrder(videos[j], videos[i]);
    }
    if Sorted(other, ByOrder) && (forall m :: Filter(other, Tied(ByOrder, m)) == Filter(kept, Tied(ByOrder, m))) {
      StableSortIsUnique(other, videos, ByOrder);
    }
  }

  function FindDuration(media: seq<Media>, id: Id): Option<nat> {
    if media == [] then None
    else if media[0].id == id then media[0].duration
    else FindDuration(media[1..], id)
  }

  function ItemOf(post: Post, video: Media): ReelItem {
    ReelItem(BuildReelKey(post.id, video.id), post.id, video.id, FindDuration(post.media, video.id))
  }

  function Items(post: Post, videos: seq<Media>): seq<ReelItem> {
    seq(|videos|, i requires 0 <= i < |videos| => ItemOf(post, videos[i]))
  }

  function Videos(post: Post): seq<Media> { ListPostVideos(post.media) }

  function PostItems(post: Post): seq<ReelItem> { Items(post, Videos(post)) }

  function Shown(rows: seq<Post>): seq<Post> { Filter(rows, (p: Post) => p.shown) }

  function Flatten(posts: seq<Post>): seq<ReelItem> {
    if posts == [] then [] else PostItems(posts[0]) + Flatten(posts[1..])
  }

  /** Every video slide of every shown post, in feed order. */
  function Feed(rows: seq<Post>): seq<ReelItem> { Flatten(Shown(rows)) }

  // ---------------------------------------------------------------- what an entry says

  ghost predicate UniqueMedia(media: seq<Media>) { forall i, j :: 0 <= i < j < |media| ==> media[i].id != media[j].id }

  /** The entry points at the post and at the video, and carries the video's duration. */
  ghost predicate PointsAt(entry: ReelItem, post: Post, video: Media) {
    && entry.postId == post.id && entry.mediaId == video.id && entry.reelKey == post.id + ":" + video.id
    && (UniqueMedia(post.media) ==> entry.duration == video.duration)
  }

  /** The entry points at a video of a shown post. */
  ghost predicate IsEntry(rows: seq<Post>, entry: ReelItem) {
    exists post, video :: post in rows && post.shown && video in post.media && video.isVideo && PointsAt(entry, post, video)
  }

  lemma {:induction false} DurationIs(media: seq<Media>, video: Media)
    requires UniqueMedia(media) && video in media
    ensures FindDuration(media, video.id) == video.duration
  {
    if media[0] != video {
      assert video in media[1..];
      var k :| 0 <= k < |media| && media[k] == video;
      DurationIs(media[1..], video);
    }
  }

  lemma ItemPointsAt(post: Post, v: nat)
    requires v < |Videos(post)|
    ensures var video := Videos(post)[v];
      video in post.media && video.isVideo && PointsAt(PostItems(post)[v], post, video)
  {
    var video := Videos(post)[v];
    VideosAreTheStableOrder(post.media, Videos(post));
    assert video in Videos(post);
    if UniqueMedia(post.media) {
      DurationIs(post.media, video);
    }
  }

  lemma {:induction false} FlattenedEntries(rows: seq<Post>, posts: seq<Post>)
    requires forall p :: p in posts ==> p in rows && p.shown
    ensures forall x :: x in Flatten(posts) ==> IsEntry(rows, x)
  {
    if posts != [] {
      FlattenedEntries(rows, posts[1..]);
      var own := PostItems(posts[0]);
      forall x | x in own ensures IsEntry(rows, x) {
        var v :| 0 <= v < |own| && own[v] == x;
        ItemPointsAt(posts[0], v);
      }
    }
  }

  lemma {:induction false} FlattenedVideos(posts: seq<Post>, post: Post, video: Media)
    requires post in posts && video in post.media && video.isVideo
    ensures exists x :: x in Flatten(posts) && PointsAt(x, post, video)
  {
    if posts[0] == post {
      VideosAreTheStableOrder(post.media, Videos(post));
      var v :| 0 <= v < |Videos(post)| && Videos(post)[v] == video;
      ItemPointsAt(post, v);
      assert Flatten(posts)[v] == PostItems(post)[v];
    } else {
      FlattenedVideos(posts[1..], post, video);
      var x :| x in Flatten(posts[1..]) && PointsAt(x, post, video);
      assert x in Flatten(posts);
    }
  }

  /** The feed's entries point at videos of shown posts, and every such video has one that points at it. */
  lemma FeedPointsAtVideos(rows: seq<Post>)
    ensures forall x :: x in Feed(rows) ==> IsEntry(rows, x)
    ensures forall post, video :: post in rows && post.shown && video in post.media && video.isVideo ==>
      exists x :: x in Feed(rows) && PointsAt(x, post, video)
  {
    FlattenedEntries(rows, Shown(rows));
    forall post, video | post in rows && post.shown && video in post.media && video.isVideo
      ensures exists x :: x in Feed(rows) && PointsAt(x, post, video)
    {
      FlattenedVideos(Shown(rows), post, video);
    }
  }

  // ---------------------------------------------------------------- the database

  ghost predicate DistinctIds(rows: seq<Post>) {
    forall i, j :: 0 <= i < j < |rows| ==> rows[i].id != rows[j].id
  }

  /** The position of a post in the table, or the table's length. */
  function PositionOf(rows: seq<Post>, id: Id): (i: nat)
    ensures i <= |rows|
    ensures i < |rows| ==> rows[i].id == id
    ensures forall j :: 0 <= j < i ==> rows[j].id != id
  {
    FirstWhere(rows, (p: Post) => p.id == id)
  }

  /** `findMany` with the feed's filter and order: from the cursor row on, skip, take. */
  function Fetch(rows: seq<Post>, cursor: Option<Id>, skip: nat, take: nat): seq<Post> {
    var start := if cursor.Some? then PositionOf(rows, cursor.value) else 0;
    var found := Shown(rows[start..]);
    Take(if skip <= |found| then found[skip..] else [], take)
  }

  // ---------------------------------------------------------------- what a page should be

  predicate HasVideo(post: Post, mediaId: Id) {
    exists i :: 0 <= i < |Videos(post)| && Videos(post)[i].id == mediaId
  }

  function SlideIndex(videos: seq<Media>, mediaId: Id): (i: nat)
    ensures i <= |videos|
    ensures i < |videos| ==> videos[i].id == mediaId
    ensures forall j :: 0 <= j < i ==> videos[j].id != mediaId
  {
    FirstWhere(videos, (m: Media) => m.id == mediaId)
  }

  /** What is left of the cursor's own post: the slides after the named one, or all if it is gone. */
  function AfterSlide(post: Post, mediaId: Id): seq<ReelItem> {
    if HasVideo(post, mediaId) then PostItems(post)[SlideIndex(Videos(post), mediaId) + 1..] else PostItems(post)
  }

  /** A legacy cursor names a post only, and stands for its first slide. */
  function AfterFirst(post: Post): seq<ReelItem> {
    if PostItems(post) == [] then [] else PostItems(post)[1..]
  }

  /** The feed from the row at `at` on, where the row itself keeps only `own` if it is shown. */
  function FeedFrom(rows: seq<Post>, at: nat, own: seq<ReelItem>): seq<ReelItem>
    requires at < |rows|
  {
    (if rows[at].shown then own else []) + Feed(rows[at + 1..])
  }

  /** The entries after a cursor; an absent, malformed or dangling cursor starts over. */
  function Remaining(rows: seq<Post>, cursor: Option<string>): seq<ReelItem> {
    if cursor.None? then Feed(rows)
    else
      match ParseReelKey(cursor.value)
      case Malformed => Feed(rows)
      case Slide(postId, mediaId) =>
        var at := PositionOf(rows, postId);
        if at == |rows| then Feed(rows) else FeedFrom(rows, at, AfterSlide(rows[at], mediaId))
      case Legacy(postId) =>
        var at := PositionOf(rows, postId);
        if at == |rows| then Feed(rows) else FeedFrom(rows, at, AfterFirst(rows[at]))
  }

  function PageAfter(rows: seq<Post>, cursor: Option<string>, limit: nat): Page {
    var rest := Remaining(rows, cursor);
    var data := Take(rest, limit);
    var more := |rest| > limit;
    Page(data, if more && data != [] then Some(data[|data| - 1].reelKey) else None, more)
  }

  // ---------------------------------------------------------------- the batched loop

  /** Where to resume inside a post: after one slide, or (legacy) after the first. */
  datatype Resume = Resume(postId: Id, mediaId: Option<Id>)

  /** What the video loop still emits from slide `k` of a post on. */
  function Emit(resume: Option<Resume>, post: Post, k: nat): seq<ReelItem>
    requires k <= |Videos(post)|
    decreases |Videos(post)| - k
  {
    if k == |Videos(post)| then []
    else if resume.Some? && post.id == resume.value.postId then
      if resume.value.mediaId.None? then Emit(None, post, k + 1)
      else if !HasVideo(post, resume.value.mediaId.value) then [ItemOf(post, Videos(post)[k])] + Emit(None, post, k + 1)
      else if Videos(post)[k].id == resume.value.mediaId.value then Emit(None, post, k + 1)
      else Emit(resume, post, k + 1)
    else [ItemOf(post, Videos(post)[k])] + Emit(resume, post, k + 1)
  }

  /** The resume point after the video loop has run over slides `k` on. */
  function ResumeAfter(resume: Option<Resume>, post: Post): Option<Resume> {
    if resume.Some? && post.id == resume.value.postId && Videos(post) != [] then None else resume
  }

  /** What the post loop still emits for the given posts. */
  function Pending(resume: Option<Resume>, posts: seq<Post>): seq<ReelItem>
    decreases posts
  {
    if posts == [] then []
    else Emit(resume, posts[0], 0) + Pending(ResumeAfter(resume, posts[0]), posts[1..])
  }

  lemma {:induction false} EmitAll(resume: Option<Resume>, post: Post, k: nat)
    requires k <= |Videos(post)| && !(resume.Some? && post.id == resume.value.postId)
    ensures Emit(resume, post, k) == PostItems(post)[k..]
    decreases |Videos(post)| - k
  {
    if k < |Videos(post)| {
      EmitAll(resume, post, k + 1);
      assert PostItems(post)[k..] == [PostItems(post)[k]] + PostItems(post)[k + 1..];
    }
  }

  /** Before the named slide nothing is emitted; from it on, everything after it is. */
  lemma {:induction false} EmitAfterSlide(post: Post, mediaId: Id, k: nat)
    requires HasVideo(post, mediaId) && k <= SlideIndex(Videos(post), mediaId)
    ensures Emit(Some(Resume(post.id, Some(mediaId))), post, k) == AfterSlide(post, mediaId)
    decreases |Videos(post)| - k
  {
    var at := SlideIndex(Videos(post), mediaId);
    if k == at {
      EmitAll(None, post, at + 1);
    } else {
      EmitAfterSlide(post, mediaId, k + 1);
    }
  }

  lemma EmitOwnPost(post: Post, mediaId: Option<Id>)
    ensures Emit(Some(Resume(post.id, mediaId)), post, 0)
         == if mediaId.Some? then AfterSlide(post, mediaId.value) else AfterFirst(post)
  {
    if Videos(post) != [] {
      if mediaId.None? {
        EmitAll(None, post, 1);
      } else if HasVideo(post, mediaId.value) {
        EmitAfterSlide(post, mediaId.value, 0);
      } else {
        EmitAll(None, post, 1);
        assert PostItems(post) == [PostItems(post)[0]] + PostItems(post)[1..];
      }
    }
  }

  lemma {:induction false} PendingIsFlatten(resume: Option<Resume>, posts: seq<Post>)
    requires resume.Some? ==> forall i :: 0 <= i < |posts| ==> posts[i].id != resume.value.postId
    ensures Pending(resume, posts) == Flatten(posts)
    decreases posts
  {
    if posts != [] {
      EmitAll(resume, posts[0], 0);
      PendingIsFlatten(resume, posts[1..]);
    }
  }

  lemma ShownTail(rows: seq<Post>, at: nat)
    requires at < |rows|
    ensures Shown(rows[at..]) == (if rows[at].shown then [rows[at]] else []) + Shown(rows[at + 1..])
  {
    assert rows[at..] == [rows[at]] + rows[at + 1..];
    FilterCons(rows[at], rows[at + 1..], (p: Post) => p.shown);
  }

  lemma AfterOwnRow(rows: seq<Post>, at: nat, resume: Option<Resume>)
    requires DistinctIds(rows) && at < |rows|
    requires resume.Some? ==> resume.value.postId == rows[at].id
    ensures Pending(resume, Shown(rows[at + 1..])) == Feed(rows[at + 1..])
  {
    var rest := Shown(rows[at + 1..]);
    forall i | 0 <= i < |rest| ensures rest[i].id != rows[at].id {
      assert rest[i] in rows[at + 1..];
    }
    PendingIsFlatten(resume, rest);
  }

  /** Starting the loop at the cursor's row emits exactly the entries after the cursor. */
  lemma PendingFromCursor(rows: seq<Post>, at: nat, mediaId: Option<Id>)
    requires DistinctIds(rows) && at < |rows|
    ensures Pending(Some(Resume(rows[at].id, mediaId)), Shown(rows[at..]))
         == FeedFrom(rows, at, if mediaId.Some? then AfterSlide(rows[at], mediaId.value) else AfterFirst(rows[at]))
  {
    var resume := Some(Resume(rows[at].id, mediaId));
    ShownTail(rows, at);
    AfterOwnRow(rows, at, resume);
    AfterOwnRow(rows, at, None);
    if rows[at].shown {
      EmitOwnPost(rows[at], mediaId);
      assert Shown(rows[at..])[0] == rows[at] && Shown(rows[at..])[1..] == Shown(rows[at + 1..]);
    } else {
      assert Shown(rows[at..]) == Shown(rows[at + 1..]);
    }
  }

  /** The b-th shown post from `start` on sits at some row, and what follows it there is what follows it in the list. */
  lemma {:induction false} LocateShown(rows: seq<Post>, start: nat, b: nat) returns (at: nat)
    requires start <= |rows| && b < |Shown(rows[start..])|
    ensures start <= at < |rows| && rows[at] == Shown(rows[start..])[b] && rows[at].shown
    ensures Shown(rows[at + 1..]) == Shown(rows[start..])[b + 1..]
    decreases |rows| - start
  {
    ShownTail(rows, start);
    if rows[start].shown && b == 0 {
      at := start;
    } else {
      at := LocateShown(rows, start + 1, if rows[start].shown then b - 1 else b);
    }
  }

  lemma PositionIsUnique(rows: seq<Post>, at: nat)
    requires DistinctIds(rows) && at < |rows|
    ensures PositionOf(rows, rows[at].id) == at
  {
  }

  /** The video loop over one post; it stops as soon as the page is over-full. */
  method EmitPost(post: Post, resume: Option<Resume>, items: seq<ReelItem>, limit: nat)
    returns (now: seq<ReelItem>, next: Option<Resume>)
    requires |items| <= limit
    ensures |now| <= limit + 1
    ensures |now| <= limit ==> now == items + Emit(resume, post, 0) && next == ResumeAfter(resume, post)
    ensures now <= items + Emit(resume, post, 0)
  {
    hide ItemOf;
    hide ListPostVideos;
    now, next := items, resume;
    var videos := Videos(post);
    var k := 0;
    while k < |videos|
      invariant 0 <= k <= |videos|
      invariant |now| <= limit
      invariant now + Emit(next, post, k) == items + Emit(resume, post, 0)
      invariant k == 0 ==> next == resume
      invariant next == None || next == resume
      invariant k > 0 && resume.Some? && post.id == resume.value.postId && next == resume ==>
        resume.value.mediaId.Some? && HasVideo(post, resume.value.mediaId.value)
        && forall j :: 0 <= j < k ==> videos[j].id != resume.value.mediaId.value
      invariant resume.Some? && post.id != resume.value.postId ==> next == resume
    {
      var video := videos[k];
      if next.Some? && post.id == next.value.postId {
        if next.value.mediaId.Some? {
          if !HasVideo(post, next.value.mediaId.value) {
            next := None;
          } else if video.id == next.value.mediaId.value {
            next := None;
            k := k + 1;
            continue;
          } else {
            k := k + 1;
            continue;
          }
        } else {
          next := None;
          k := k + 1;
          continue;
        }
      }
      now := now + [ItemOf(post, video)];
      if |now| > limit {
        return;
      }
      k := k + 1;
    }
  }

  lemma PendingStep(resume: Option<Resume>, todo: seq<Post>)
    requires todo != []
    ensures Pending(resume, todo) == Emit(resume, todo[0], 0) + Pending(ResumeAfter(resume, todo[0]), todo[1..])
  {
  }

  /** The post loop over one batch. */
  method EmitBatch(batch: seq<Post>, resume: Option<Resume>, items: seq<ReelItem>, limit: nat, ghost later: seq<Post>)
    returns (now: seq<ReelItem>, next: Option<Resume>)
    requires |items| <= limit
    ensures |now| <= limit + 1
    ensures |now| <= limit ==> now + Pending(next, later) == items + Pending(resume, batch + later)
    ensures now <= items + Pending(resume, batch + later)
  {
    hide Pending;
    hide Emit;
    hide ResumeAfter;
    now, next := items, resume;
    var i := 0;
    assert (batch + later)[0..] == batch + later;
    while i < |batch|
      invariant 0 <= i <= |batch|
      invariant |now| <= limit
      invariant now + Pending(next, (batch + later)[i..]) == items + Pending(resume, batch + later)
    {
      ghost var todo := (batch + later)[i..];
      ghost var before, was := now, next;
      assert todo[0] == batch[i] && todo[1..] == (batch + later)[i + 1..];
      now, next := EmitPost(batch[i], next, now, limit);
      PendingStep(was, todo);
      assert before + Pending(was, todo) == (before + Emit(was, batch[i], 0)) + Pending(ResumeAfter(was, batch[i]), todo[1..]);
      if |now| > limit {
        return;
      }
      i := i + 1;
    }
    assert (batch + later)[|batch|..] == later;
  }

  /** The post cursor of the loop: `todo` is what the next fetch will start with. */
  ghost predicate AtCursor(rows: seq<Post>, cursor: Option<Id>, included: bool, todo: seq<Post>) {
    if cursor.None? then todo == Shown(rows)
    else
      var at := PositionOf(rows, cursor.value);
      at < |rows| &&
      if included then todo == Shown(rows[at..]) else rows[at].shown && todo == Shown(rows[at + 1..])
  }

  lemma FetchReads(rows: seq<Post>, cursor: Option<Id>, included: bool, todo: seq<Post>, take: nat)
    requires AtCursor(rows, cursor, included, todo)
    ensures Fetch(rows, cursor, if cursor.None? || included then 0 else 1, take) == Take(todo, take)
  {
    assert rows[0..] == rows && todo[0..] == todo;
    if cursor.Some? && !included {
      ShownTail(rows, PositionOf(rows, cursor.value));
      assert Shown(rows[PositionOf(rows, cursor.value)..])[1..] == todo;
    }
  }

  /** After a batch, the id of its last post leads to exactly the posts that follow it. */
  lemma CursorAdvances(rows: seq<Post>, cursor: Option<Id>, included: bool, todo: seq<Post>, b: nat)
    requires DistinctIds(rows) && AtCursor(rows, cursor, included, todo) && 0 < b <= |todo|
    ensures AtCursor(rows, Some(todo[b - 1].id), false, todo[b..])
  {
    hide Shown;
    hide DistinctIds;
    var start := if cursor.None? then 0 else PositionOf(rows, cursor.value) + (if included then 0 else 1);
    assert rows[0..] == rows;
    var at := LocateShown(rows, start, b - 1);
    PositionIsUnique(rows, at);
  }

  /** Where the loop starts, and that it starts with exactly the entries after the cursor to emit. */
  lemma LoopStarts(rows: seq<Post>, cursor: Option<string>, resume: Option<Resume>) returns (todo: seq<Post>)
    requires DistinctIds(rows) && resume == ResumePoint(rows, cursor)
    ensures AtCursor(rows, if resume.Some? then Some(resume.value.postId) else None, resume.Some?, todo)
    ensures Pending(resume, todo) == Remaining(rows, cursor)
  {
    if resume.Some? {
      var at := PositionOf(rows, resume.value.postId);
      PendingFromCursor(rows, at, resume.value.mediaId);
      todo := Shown(rows[at..]);
    } else {
      todo := Shown(rows);
      PendingIsFlatten(None, todo);
    }
  }

  /** The resume point of a cursor: none when it is absent, malformed, or names a post that is gone. */
  function ResumePoint(rows: seq<Post>, cursor: Option<string>): Option<Resume> {
    var named := if cursor.None? then None
      else match ParseReelKey(cursor.value)
        case Slide(postId, mediaId) => Some(Resume(postId, Some(mediaId)))
        case Legacy(postId) => Some(Resume(postId, None))
        case Malformed => None;
    if named.Some? && PositionOf(rows, named.value.postId) == |rows| then None else named
  }

  /** Fetch one row more than a batch, to learn whether another batch follows. */
  method NextBatch(rows: seq<Post>, cursor: Option<Id>, included: bool, batchSize: nat, ghost todo: seq<Post>)
    returns (batch: seq<Post>, more: bool)
    requires DistinctIds(rows) && AtCursor(rows, cursor, included, todo)
    ensures batch == Take(todo, batchSize) && (more <==> |todo| > batchSize)
    ensures batch != [] ==> AtCursor(rows, Some(batch[|batch| - 1].id), false, todo[|batch|..])
  {
    hide AtCursor;
    hide Fetch;
    var posts := Fetch(rows, cursor, if cursor.None? || included then 0 else 1, batchSize + 1);
    FetchReads(rows, cursor, included, todo, batchSize + 1);
    more := |posts| > batchSize;
    batch := Take(posts, batchSize);
    if batch != [] {
      CursorAdvances(rows, cursor, included, todo, |batch|);
    }
  }

  /**
   * One page of the reels feed. Whatever the batch size and wherever a batch ends, it is the
   * next `limit` entries after the cursor, and `hasMore` says whether any are left after them.
   */
  method BuildReelFeedPage(rows: seq<Post>, cursor: Option<string>, limit: nat) returns (page: Page)
    requires DistinctIds(rows)
    ensures page == PageAfter(rows, cursor, limit)
    ensures |page.data| <= limit && forall x :: x in page.data ==> IsEntry(rows, x)
  {
    PageHoldsEntries(rows, cursor, limit);
    hide IsEntry;
    hide Pending;
    hide Remaining;
    hide AtCursor;
    hide DistinctIds;
    hide ResumePoint;
    hide PageAfter;
    var resume := ResumePoint(rows, cursor);
    var postPageCursor := if resume.Some? then Some(resume.value.postId) else None;
    var includeCursorPost := resume.Some?;
    ghost var target := Remaining(rows, cursor);
    ghost var todo := LoopStarts(rows, cursor, resume);

    var items: seq<ReelItem> := [];
    var dbHasMore := true;
    var batchSize := if limit * 3 >= 15 then limit * 3 else 15;
    while |items| <= limit && dbHasMore
      invariant |items| <= limit + 1 && items <= target
      invariant |items| <= limit ==> items + Pending(resume, todo) == target
      invariant !dbHasMore ==> todo == []
      invariant AtCursor(rows, postPageCursor, includeCursorPost, todo)
      decreases |todo|, dbHasMore
    {
      var batch;
      batch, dbHasMore := NextBatch(rows, postPageCursor, includeCursorPost, batchSize, todo);
      if |batch| == 0 {
        break;
      }
      ghost var later := todo[|batch|..];
      assert todo == batch + later;
      items, resume := EmitBatch(batch, resume, items, limit, later);
      includeCursorPost := false;
      postPageCursor := Some(batch[|batch| - 1].id);
      todo := later;
    }
    NothingPending(resume, todo);
    PageOfItems(rows, cursor, limit, items, dbHasMore);

    var hasMore := |items| > limit || dbHasMore;
    var data := Take(items, limit);
    page := Page(data, if hasMore && data != [] then Some(data[|data| - 1].reelKey) else None, hasMore);
  }

  lemma NothingPending(resume: Option<Resume>, todo: seq<Post>)
    ensures todo == [] ==> Pending(resume, todo) == []
  {
  }

  lemma OwnItemsAreEntries(rows: seq<Post>, at: nat, own: seq<ReelItem>)
    requires at < |rows| && rows[at].shown && forall x :: x in own ==> x in PostItems(rows[at])
    ensures forall x :: x in own ==> IsEntry(rows, x)
  {
    var items := PostItems(rows[at]);
    forall x | x in own ensures IsEntry(rows, x) {
      var v :| 0 <= v < |items| && items[v] == x;
      ItemPointsAt(rows[at], v);
    }
  }

  lemma EntriesOfTail(rows: seq<Post>, at: nat)
    requires at < |rows|
    ensures forall x :: x in Feed(rows[at + 1..]) ==> IsEntry(rows, x)
  {
    FeedPointsAtVideos(rows[at + 1..]);
    hide Feed;
    hide PointsAt;
    forall x | x in Feed(rows[at + 1..]) ensures IsEntry(rows, x) {
      assert IsEntry(rows[at + 1..], x);
    }
  }

  /** Whatever the cursor, what is left of the feed are entries of it. */
  lemma RemainingPointsAtVideos(rows: seq<Post>, cursor: Option<string>)
    ensures forall x :: x in Remaining(rows, cursor) ==> IsEntry(rows, x)
  {
    FeedPointsAtVideos(rows);
    hide Feed;
    hide IsEntry;
    hide PostItems;
    hide Videos;
    hide SlideIndex;
    var resume := ResumePoint(rows, cursor);
    if resume.Some? {
      var at := PositionOf(rows, resume.value.postId);
      var own := if resume.value.mediaId.Some? then AfterSlide(rows[at], resume.value.mediaId.value) else AfterFirst(rows[at]);
      EntriesOfTail(rows, at);
      if rows[at].shown {
        OwnItemsAreEntries(rows, at, own);
      }
    }
  }

  lemma PageHoldsEntries(rows: seq<Post>, cursor: Option<string>, limit: nat)
    ensures var page := PageAfter(rows, cursor, limit); |page.data| <= limit && forall x :: x in page.data ==> IsEntry(rows, x)
  {
    RemainingPointsAtVideos(rows, cursor);
    hide Remaining;
    hide IsEntry;
  }

  /** An over-full page, or everything that was left, makes the right answer. */
  lemma PageOfItems(rows: seq<Post>, cursor: Option<string>, limit: nat, items: seq<ReelItem>, dbHasMore: bool)
    requires items <= Remaining(rows, cursor)
    requires |items| <= limit ==> items == Remaining(rows, cursor) && !dbHasMore
    ensures var hasMore := |items| > limit || dbHasMore; var data := Take(items, limit);
      PageAfter(rows, cursor, limit) ==
        Page(data, if hasMore && data != [] then Some(data[|data| - 1].reelKey) else None, hasMore)
  {
    hide Remaining;
    assert |items| > limit ==> Take(items, limit) == Take(Remaining(rows, cursor), limit);
  }
}
