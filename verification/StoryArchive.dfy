/** The story archive: stories that expire are copied, with their stickers folded into the overlay, then deleted. */
module StoryArchive {
  import opened Optional
  import opened Sorting
  import opened JsonValues

  type Id = string

  datatype Sticker = Sticker(id: Id, kind: string, payload: Json, x: real, y: real, scale: real, rotation: real)

  /** The columns that are copied as they are. */
  datatype Content = Content(
    mediaUrl: string, mediaKey: Option<string>, kind: string, durationMs: Option<int>, linkedPost: Option<Id>,
    altText: Option<string>, hashtag: Option<string>, city: Option<Id>, hlsUrl: Option<string>,
    thumbnailUrl: Option<string>, createdAt: int)

  datatype Audience = PUBLIC | CLOSE_FRIENDS

  datatype Story = Story(id: Id, user: Id, content: Content, overlay: Json, audience: Audience, expiresAt: int)

  datatype ArchiveRow = ArchiveRow(user: Id, content: Content, overlay: Json, original: Id, source: Audience)

  datatype State = State(stories: seq<Story>, archives: seq<ArchiveRow>)

  /** What the passes read from other tables. */
  datatype World = World(stickers: map<Id, seq<Sticker>>, archiveEnabled: map<Id, bool>)

  // ---------------------------------------------------------------- stickers in the overlay

  const STICKERS := "_stickers"

  function StickerJson(s: Sticker): Json {
    JObject(map["id" := JString(s.id), "type" := JString(s.kind), "payload" := s.payload, "x" := JNumber(s.x),
                "y" := JNumber(s.y), "scale" := JNumber(s.scale), "rotation" := JNumber(s.rotation)])
  }

  function StickersJson(stickers: seq<Sticker>): seq<Json> {
    seq(|stickers|, i requires 0 <= i < |stickers| => StickerJson(stickers[i]))
  }

  function EmbedStickersInOverlay(overlay: Json, stickers: seq<Sticker>): Json {
    if stickers == [] then overlay
    else
      var base := if overlay.JObject? then overlay.fields else map["layers" := JArray([])];
      JObject(base[STICKERS := JArray(StickersJson(stickers))])
  }

  const LooksLikeSticker: Json -> bool := (j: Json) =>
    j.JObject? && "id" in j.fields && "type" in j.fields && j.fields["id"].JString?

  function ExtractArchivedStickers(overlay: Json): (Json, seq<Json>) {
    if !overlay.JObject? then (overlay, [])
    else
      var raw := if STICKERS in overlay.fields then overlay.fields[STICKERS] else JNull;
      (JObject(overlay.fields - {STICKERS}), if raw.JArray? then Filter(raw.items, LooksLikeSticker) else [])
  }

  /** Reading back the reserved field of any object. */
  lemma ExtractFrom(base: map<string, Json>, stickers: seq<Sticker>)
    ensures ExtractArchivedStickers(JObject(base[STICKERS := JArray(StickersJson(stickers))])) ==
      (JObject(base - {STICKERS}), StickersJson(stickers))
    ensures base - {STICKERS} == base <==> STICKERS !in base
  {
    FilterAll(StickersJson(stickers), LooksLikeSticker);
    assert base[STICKERS := JArray(StickersJson(stickers))] - {STICKERS} == base - {STICKERS};
  }

  /**
   * Extracting gives back the overlay and every sticker exactly if the overlay is an object that does
   * not use the reserved field, or is no object and there are no stickers to embed.
   */
  lemma ExtractUndoesEmbedExactly(overlay: Json, stickers: seq<Sticker>)
    ensures ExtractArchivedStickers(EmbedStickersInOverlay(overlay, stickers)) == (overlay, StickersJson(stickers)) <==>
      if overlay.JObject? then STICKERS !in overlay.fields else stickers == []
  {
    var base := if overlay.JObject? then overlay.fields else map["layers" := JArray([])];
    ExtractFrom(base, stickers);
    hide LooksLikeSticker;
    hide Filter;
    if stickers != [] {
      hide ExtractArchivedStickers;
      assert EmbedStickersInOverlay(overlay, stickers) == JObject(base[STICKERS := JArray(StickersJson(stickers))]);
    }
  }

  /** A story with a sticker and no overlay comes back with an overlay it never had. */
  lemma BareStoryGainsLayers(sticker: Sticker)
    ensures ExtractArchivedStickers(EmbedStickersInOverlay(JNull, [sticker])).0 == JObject(map["layers" := JArray([])])
    ensures ExtractArchivedStickers(EmbedStickersInOverlay(JNull, [sticker])) != (JNull, StickersJson([sticker]))
  {
    ExtractUndoesEmbedExactly(JNull, [sticker]);
    ExtractFrom(map["layers" := JArray([])], [sticker]);
    assert STICKERS[0] == '_' && "layers"[0] == 'l';
    assert map["layers" := JArray([])] - {STICKERS} == map["layers" := JArray([])];
  }

  /** A sticker is stored under the reserved field as an object with its seven columns. */
  lemma EmbeddedStickersSay(overlay: Json, stickers: seq<Sticker>, i: nat)
    requires i < |stickers|
    ensures var stored := EmbedStickersInOverlay(overlay, stickers);
      && stored.JObject? && "_stickers" in stored.fields && stored.fields["_stickers"].JArray?
      && |stored.fields["_stickers"].items| == |stickers|
      && var j := stored.fields["_stickers"].items[i];
         j == JObject(map["id" := JString(stickers[i].id), "type" := JString(stickers[i].kind), "x" := JNumber(stickers[i].x),
                          "y" := JNumber(stickers[i].y), "rotation" := JNumber(stickers[i].rotation),
                          "scale" := JNumber(stickers[i].scale), "payload" := stickers[i].payload])
  {
  }

  /** Of any overlay, reading keeps every other field, and of the reserved list the objects with a text id and a type. */
  lemma ExtractExactly(overlay: Json)
    ensures var (rest, stickers) := ExtractArchivedStickers(overlay);
      if !overlay.JObject? then rest == overlay && stickers == []
      else
        && rest == JObject(overlay.fields - {"_stickers"})
        && (forall j :: j in stickers <==>
              "_stickers" in overlay.fields && overlay.fields["_stickers"].JArray? && j in overlay.fields["_stickers"].items
              && j.JObject? && "type" in j.fields && "id" in j.fields && exists id :: j.fields["id"] == JString(id))
  {
    if overlay.JObject? && STICKERS in overlay.fields && overlay.fields[STICKERS].JArray? {
      forall j ensures LooksLikeSticker(j) <==>
        j.JObject? && "type" in j.fields && "id" in j.fields && exists id :: j.fields["id"] == JString(id)
      {
        if LooksLikeSticker(j) {
          assert j.fields["id"] == JString(j.fields["id"].text);
        }
      }
    }
  }

  // ---------------------------------------------------------------- archiving one story

  predicate IsArchived(archives: seq<ArchiveRow>, id: Id) {
    exists i :: 0 <= i < |archives| && archives[i].original == id
  }

  function StickersOf(w: World, id: Id): seq<Sticker> { if id in w.stickers then w.stickers[id] else [] }

  function RowOf(w: World, s: Story, source: Audience): ArchiveRow {
    ArchiveRow(s.user, s.content, EmbedStickersInOverlay(s.overlay, StickersOf(w, s.id)), s.id, source)
  }

  function Archived(archives: seq<ArchiveRow>, w: World, s: Story, source: Audience): seq<ArchiveRow> {
    if IsArchived(archives, s.id) then archives else archives + [RowOf(w, s, source)]
  }

  // ---------------------------------------------------------------- the expiry pass

  function Expired(now: int): Story -> bool { (s: Story) => s.expiresAt < now }

  function Alive(now: int): Story -> bool { (s: Story) => s.expiresAt >= now }

  predicate Keeps(w: World, user: Id) { user in w.archiveEnabled ==> w.archiveEnabled[user] }

  /** Expired stories that the pass copies: archiving is on and there is no row yet. */
  function ToCopy(archives: seq<ArchiveRow>, w: World): Story -> bool {
    (s: Story) => Keeps(w, s.user) && !IsArchived(archives, s.id)
  }

  function Rows(w: World, stories: seq<Story>): seq<ArchiveRow> {
    seq(|stories|, i requires 0 <= i < |stories| => RowOf(w, stories[i], stories[i].audience))
  }

  /** The pass in one line: the living stay, and the expired ones worth copying are appended in order. */
  function ExpiryPass(s: State, w: World, now: int): State {
    State(Filter(s.stories, Alive(now)),
          s.archives + Rows(w, Filter(Filter(s.stories, Expired(now)), ToCopy(s.archives, w))))
  }

  ghost predicate DistinctIds(stories: seq<Story>) {
    forall i, j :: 0 <= i < j < |stories| ==> stories[i].id != stories[j].id
  }

  /** At most one archive row for each original story. */
  ghost predicate OneRowEach(archives: seq<ArchiveRow>) {
    forall i, j :: 0 <= i < j < |archives| ==> archives[i].original != archives[j].original
  }

  const StoryId: Story -> Id := (s: Story) => s.id

  lemma PassKeepsOneRowEach(s: State, w: World, now: int)
    requires DistinctIds(s.stories) && OneRowEach(s.archives)
    ensures DistinctIds(ExpiryPass(s, w, now).stories) && OneRowEach(ExpiryPass(s, w, now).archives)
  {
    var copied := Filter(Filter(s.stories, Expired(now)), ToCopy(s.archives, w));
    FilterKeepsDistinct(s.stories, Alive(now), StoryId);
    FilterKeepsDistinct(s.stories, Expired(now), StoryId);
    FilterKeepsDistinct(Filter(s.stories, Expired(now)), ToCopy(s.archives, w), StoryId);
    forall k | 0 <= k < |copied| ensures !IsArchived(s.archives, copied[k].id) {
      assert copied[k] in copied;
    }
  }

  /**
   * After a pass no story that had expired is live, every living one still is, and each expired one
   * whose owner keeps an archive has its one row.
   */
  lemma PassArchivesTheExpired(s: State, w: World, now: int, story: Story)
    requires story in s.stories
    ensures var after := ExpiryPass(s, w, now);
      && (story in after.stories <==> story.expiresAt >= now)
      && s.archives <= after.archives
      && (story.expiresAt < now && Keeps(w, story.user) ==> IsArchived(after.archives, story.id))
      && (story.expiresAt < now && Keeps(w, story.user) && !IsArchived(s.archives, story.id) ==>
            RowOf(w, story, story.audience) in after.archives)
  {
    var after := ExpiryPass(s, w, now);
    var copied := Filter(Filter(s.stories, Expired(now)), ToCopy(s.archives, w));
    if story.expiresAt < now && Keeps(w, story.user) {
      if !IsArchived(s.archives, story.id) {
        assert story in copied;
        var k :| 0 <= k < |copied| && copied[k] == story;
        assert after.archives[|s.archives| + k] == RowOf(w, story, story.audience);
      } else {
        var k :| 0 <= k < |s.archives| && s.archives[k].original == story.id;
        assert after.archives[k].original == story.id;
      }
    }
  }

  lemma PassOutcome(s: State, w: World, now: int)
    requires DistinctIds(s.stories)
    ensures var after := ExpiryPass(s, w, now);
      && DistinctIds(after.stories) && (OneRowEach(s.archives) ==> OneRowEach(after.archives)) && s.archives <= after.archives
      && (forall x :: x in s.stories ==>
            (x in after.stories <==> x.expiresAt >= now)
            && (x.expiresAt < now && Keeps(w, x.user) ==> IsArchived(after.archives, x.id)))
  {
    FilterKeepsDistinct(s.stories, Alive(now), StoryId);
    if OneRowEach(s.archives) {
      PassKeepsOneRowEach(s, w, now);
    }
    forall x | x in s.stories
      ensures (x in ExpiryPass(s, w, now).stories <==> x.expiresAt >= now)
        && (x.expiresAt < now && Keeps(w, x.user) ==> IsArchived(ExpiryPass(s, w, now).archives, x.id))
    {
      PassArchivesTheExpired(s, w, now, x);
    }
  }

  // ---------------------------------------------------------------- runs

  datatype Command =
    | Publish(story: Story)
    | Highlight(id: Id, world: World)
    | Remove(id: Id, world: World)
    | Expire(now: int, world: World)

  function FindStory(stories: seq<Story>, id: Id): (i: nat)
    ensures i <= |stories|
    ensures i < |stories| ==> stories[i].id == id
    ensures i == |stories| ==> forall k :: 0 <= k < |stories| ==> stories[k].id != id
  {
    FirstWhere(stories, (s: Story) => s.id == id)
  }

  function Without(id: Id): Story -> bool { (s: Story) => s.id != id }

  function Step(s: State, c: Command): State {
    match c
    case Publish(story) =>
      if FindStory(s.stories, story.id) < |s.stories| then s else s.(stories := s.stories + [story])
    case Highlight(id, w) =>
      var i := FindStory(s.stories, id);
      if i == |s.stories| then s else s.(archives := Archived(s.archives, w, s.stories[i], PUBLIC))
    case Remove(id, w) =>
      var i := FindStory(s.stories, id);
      if i == |s.stories| then s
      else State(Filter(s.stories, Without(id)), Archived(s.archives, w, s.stories[i], PUBLIC))
    case Expire(now, w) => ExpiryPass(s, w, now)
  }

  function Run(s: State, commands: seq<Command>): State {
    if commands == [] then s else Step(Run(s, commands[..|commands| - 1]), commands[|commands| - 1])
  }

  /** The row that a story leaves: its owner, its columns, its overlay with the stickers, its id and the given source. */
  ghost predicate IsRowOf(row: ArchiveRow, w: World, s: Story, source: Audience) {
    && row.user == s.user && row.content == s.content && row.original == s.id && row.source == source
    && row.overlay == EmbedStickersInOverlay(s.overlay, if s.id in w.stickers then w.stickers[s.id] else [])
  }

  lemma IsArchivedExactly(archives: seq<ArchiveRow>, id: Id)
    ensures IsArchived(archives, id) <==> exists row :: row in archives && row.original == id
  {
    if row :| row in archives && row.original == id {
      var i :| 0 <= i < |archives| && archives[i] == row;
    }
  }

  lemma FindsExactly(stories: seq<Story>, id: Id)
    ensures FindStory(stories, id) < |stories| <==> exists story :: story in stories && story.id == id
    ensures forall story :: DistinctIds(stories) && story in stories && story.id == id ==>
      FindStory(stories, id) < |stories| && stories[FindStory(stories, id)] == story
  {
    forall story | story in stories && story.id == id ensures FindStory(stories, id) < |stories| {
      var i :| 0 <= i < |stories| && stories[i] == story;
    }
  }

  /** A run performs its commands one after the other; an expiry command is one pass. */
  lemma RunsInOrder(s: State, commands: seq<Command>, c: Command, now: int, w: World)
    ensures Run(s, []) == s && Run(s, commands + [c]) == Step(Run(s, commands), c)
    ensures Step(s, Expire(now, w)) == ExpiryPass(s, w, now)
  {
    assert (commands + [c])[..|commands|] == commands;
  }

  /** Publishing takes new ids only. */
  lemma PublishExactly(s: State, story: Story)
    ensures Step(s, Publish(story)) ==
      if exists x :: x in s.stories && x.id == story.id then s else State(s.stories + [story], s.archives)
  {
    FindsExactly(s.stories, story.id);
  }

  /** Highlighting and removing archive a live story unless it has a row, always as public; removing deletes it too. */
  lemma HandlersArchiveExactly(s: State, story: Story, w: World)
    requires DistinctIds(s.stories) && story in s.stories
    ensures var high, gone := Step(s, Highlight(story.id, w)), Step(s, Remove(story.id, w));
      && high.stories == s.stories && high.archives == gone.archives
      && (forall x :: x in gone.stories <==> x in s.stories && x != story)
      && var known := exists row :: row in s.archives && row.original == story.id;
         && (known ==> high.archives == s.archives)
         && (!known ==>
               && |high.archives| == |s.archives| + 1 && s.archives <= high.archives
               && IsRowOf(high.archives[|s.archives|], w, story, PUBLIC))
  {
    FindsExactly(s.stories, story.id);
    IsArchivedExactly(s.archives, story.id);
    hide IsArchived;
    hide EmbedStickersInOverlay;
  }

  lemma ArchivedKeepsOneRowEach(archives: seq<ArchiveRow>, w: World, s: Story, source: Audience)
    ensures archives <= Archived(archives, w, s, source)
    ensures OneRowEach(archives) ==> OneRowEach(Archived(archives, w, s, source))
  {
    hide EmbedStickersInOverlay;
  }

  lemma StepKeepsOneRowEach(s: State, c: Command)
    requires DistinctIds(s.stories) && OneRowEach(s.archives)
    ensures DistinctIds(Step(s, c).stories) && OneRowEach(Step(s, c).archives) && s.archives <= Step(s, c).archives
  {
    match c {
      case Publish(_) =>
      case Highlight(id, w) =>
        hide Archived;
        hide OneRowEach;
        var i := FindStory(s.stories, id);
        if i < |s.stories| {
          ArchivedKeepsOneRowEach(s.archives, w, s.stories[i], PUBLIC);
        }
      case Remove(id, w) =>
        hide Archived;
        hide OneRowEach;
        hide Filter;
        var i := FindStory(s.stories, id);
        if i < |s.stories| {
          FilterKeepsDistinct(s.stories, Without(id), StoryId);
          ArchivedKeepsOneRowEach(s.archives, w, s.stories[i], PUBLIC);
        }
      case Expire(now, w) =>
        PassKeepsOneRowEach(s, w, now);
    }
  }

  /** Over every run of whole handlers each original story has at most one archive row, and no archive row is ever lost. */
  lemma {:induction false} OneRowOverEveryRun(s: State, commands: seq<Command>)
    requires DistinctIds(s.stories) && OneRowEach(s.archives)
    ensures DistinctIds(Run(s, commands).stories) && OneRowEach(Run(s, commands).archives)
    ensures s.archives <= Run(s, commands).archives
  {
    if commands != [] {
      hide Step;
      hide OneRowEach;
      hide DistinctIds;
      OneRowOverEveryRun(s, commands[..|commands| - 1]);
      StepKeepsOneRowEach(Run(s, commands[..|commands| - 1]), commands[|commands| - 1]);
    }
  }

  // ---------------------------------------------------------------- archiving in two round trips

  /** Who asks for an archive row. Only the expiry pass hands the story's audience on. */
  datatype Handler = Highlighting | Removing | Expiring

  function SourceFor(who: Handler, story: Story): Audience { if who == Expiring then story.audience else PUBLIC }

  /** A request that found no archive row; its own row is still to be written. */
  datatype Ticket = Ticket(story: Story, who: Handler)

  /** The tables, every story ever published, and the requests between check and write. */
  datatype Desk = Desk(state: State, published: seq<Story>, tickets: seq<Option<Ticket>>)

  /** A check works on a story row that was read before, so the story itself may be gone by then. */
  datatype Event =
    | Post(story: Story)
    | Check(published: nat, who: Handler)
    | Write(ticket: nat, world: World)
    | Delete(id: Id)

  function Next(d: Desk, e: Event): Desk {
    match e
    case Post(story) =>
      if FindStory(d.published, story.id) < |d.published| then d
      else Desk(d.state.(stories := d.state.stories + [story]), d.published + [story], d.tickets)
    case Check(k, who) =>
      if k >= |d.published| || IsArchived(d.state.archives, d.published[k].id) then d
      else d.(tickets := d.tickets + [Some(Ticket(d.published[k], who))])
    case Write(k, w) =>
      if k >= |d.tickets| || d.tickets[k].None? then d
      else
        var t := d.tickets[k].value;
        d.(state := d.state.(archives := d.state.archives + [RowOf(w, t.story, SourceFor(t.who, t.story))]),
           tickets := d.tickets[k := None])
    case Delete(id) => d.(state := d.state.(stories := Filter(d.state.stories, Without(id))))
  }

  function Exec(d: Desk, run: seq<Event>): Desk {
    if run == [] then d else Next(Exec(d, run[..|run| - 1]), run[|run| - 1])
  }

  const NO_STORIES := Desk(State([], []), [], [])

  predicate Writes(d: Desk, e: Event) { e.Write? && e.ticket < |d.tickets| && d.tickets[e.ticket].Some? }

  /** A check whose write follows at once does what `Archived` does. */
  lemma PromptWriteIsArchived(d: Desk, k: nat, who: Handler, w: World)
    requires k < |d.published|
    ensures var checked := Next(d, Check(k, who));
      var written := if checked == d then d else Next(checked, Write(|d.tickets|, w));
      var story := d.published[k];
      written.state == State(d.state.stories, Archived(d.state.archives, w, story, SourceFor(who, story)))
  {
    hide EmbedStickersInOverlay;
  }

  // ---------------------------------------------------------------- one row for each story

  /** A new row keeps one row for each story exactly if its story has none yet. */
  lemma RowKeepsOneEachExactly(archives: seq<ArchiveRow>, row: ArchiveRow)
    requires OneRowEach(archives)
    ensures OneRowEach(archives + [row]) <==> !IsArchived(archives, row.original)
  {
    var after := archives + [row];
    if IsArchived(archives, row.original) {
      var i :| 0 <= i < |archives| && archives[i].original == row.original;
      assert after[i].original == after[|archives|].original;
    }
  }

  /** The row is written although another request has archived the story since the check. */
  predicate WritesSecond(d: Desk, e: Event) {
    Writes(d, e) && IsArchived(d.state.archives, d.tickets[e.ticket].value.story.id)
  }

  lemma NextKeepsOneEachExactly(d: Desk, e: Event)
    requires OneRowEach(d.state.archives)
    ensures OneRowEach(Next(d, e).state.archives) <==> !WritesSecond(d, e)
  {
    hide OneRowEach;
    hide IsArchived;
    if Writes(d, e) {
      var t := d.tickets[e.ticket].value;
      RowKeepsOneEachExactly(d.state.archives, RowOf(e.world, t.story, SourceFor(t.who, t.story)));
    }
  }

  ghost predicate OneEachThroughout(d: Desk, run: seq<Event>) {
    OneRowEach(Exec(d, run).state.archives) && (run != [] ==> OneEachThroughout(d, run[..|run| - 1]))
  }

  ghost predicate NoSecondWrite(d: Desk, run: seq<Event>) {
    run != [] ==> NoSecondWrite(d, run[..|run| - 1]) && !WritesSecond(Exec(d, run[..|run| - 1]), run[|run| - 1])
  }

  /**
   * With checks and writes apart, each story has at most one row at every state of a run exactly if
   * each story is still without a row when its row is written.
   */
  lemma {:induction false} OneEachHoldsExactly(d: Desk, run: seq<Event>)
    requires OneRowEach(d.state.archives)
    ensures OneEachThroughout(d, run) <==> NoSecondWrite(d, run)
  {
    if run != [] {
      hide OneRowEach;
      hide WritesSecond;
      hide Next;
      var most := run[..|run| - 1];
      OneEachHoldsExactly(d, most);
      if OneRowEach(Exec(d, most).state.archives) {
        NextKeepsOneEachExactly(Exec(d, most), run[|run| - 1]);
      }
    }
  }

  lemma FiveEvents(d: Desk, run: seq<Event>)
    requires |run| == 5
    ensures Exec(d, run) == Next(Next(Next(Next(Next(d, run[0]), run[1]), run[2]), run[3]), run[4])
  {
    hide Next;
    assert run[..4][..3] == run[..3] && run[..3][..2] == run[..2] && run[..2][..1] == run[..1] && run[..1][..0] == [];
    assert Exec(d, run[..1]) == Next(d, run[0]);
    assert Exec(d, run[..2]) == Next(Exec(d, run[..1]), run[1]);
    assert Exec(d, run[..3]) == Next(Exec(d, run[..2]), run[2]);
    assert Exec(d, run[..4]) == Next(Exec(d, run[..3]), run[3]);
  }

  /** Both requests have found no row. */
  lemma TwoChecks(story: Story)
    ensures var c := Check(0, Highlighting); var t := Some(Ticket(story, Highlighting));
      Next(Next(Next(NO_STORIES, Post(story)), c), c) == Desk(State([story], []), [story], [t, t])
  {
    var posted := Desk(State([story], []), [story], []);
    assert Next(NO_STORIES, Post(story)) == posted;
    var c, t := Check(0, Highlighting), Some(Ticket(story, Highlighting));
    assert Next(posted, c) == posted.(tickets := [t]);
  }

  /** Two overlapping requests to highlight one story leave it with two archive rows. */
  lemma OverlappingHighlightsLeaveTwoRows(story: Story, w: World)
    ensures var c := Check(0, Highlighting); var row := RowOf(w, story, PUBLIC);
      var run := [Post(story), c, c, Write(0, w), Write(1, w)];
      Exec(NO_STORIES, run).state.archives == [row, row] && !OneRowEach([row, row]) && !NoSecondWrite(NO_STORIES, run)
  {
    var c, t, row := Check(0, Highlighting), Some(Ticket(story, Highlighting)), RowOf(w, story, PUBLIC);
    var run := [Post(story), c, c, Write(0, w), Write(1, w)];
    TwoChecks(story);
    FiveEvents(NO_STORIES, run);
    TwoWrites(Desk(State([story], []), [story], [t, t]), story, w);
    hide Next;
    hide EmbedStickersInOverlay;
    assert [row, row][0].original == [row, row][1].original;
    OneEachHoldsExactly(NO_STORIES, run);
  }

  lemma TwoWrites(d: Desk, story: Story, w: World)
    requires d.state.archives == [] && d.tickets == [Some(Ticket(story, Highlighting)), Some(Ticket(story, Highlighting))]
    ensures var row := RowOf(w, story, PUBLIC); Next(Next(d, Write(0, w)), Write(1, w)).state.archives == [row, row]
  {
    hide RowOf;
  }

  // ---------------------------------------------------------------- whose eyes a row is for

  predicate WasPublished(d: Desk, id: Id) { exists j :: 0 <= j < |d.published| && d.published[j].id == id }

  /** Rows and requests are about published stories, whose ids are all different. */
  ghost predicate Known(d: Desk) {
    && DistinctIds(d.published)
    && (forall k :: 0 <= k < |d.tickets| && d.tickets[k].Some? ==> d.tickets[k].value.story in d.published)
    && (forall i :: 0 <= i < |d.state.archives| ==> WasPublished(d, d.state.archives[i].original))
  }

  /** Every archive row names the audience its story was published for. */
  ghost predicate SourcesRight(d: Desk) {
    forall i, j :: 0 <= i < |d.state.archives| && 0 <= j < |d.published| && d.state.archives[i].original == d.published[j].id
      ==> d.state.archives[i].source == d.published[j].audience
  }

  /** A highlight or a removal writes the row of a story that was for close friends. */
  predicate Widens(d: Desk, e: Event) {
    Writes(d, e) && var t := d.tickets[e.ticket].value; t.who != Expiring && t.story.audience == CLOSE_FRIENDS
  }

  lemma StaysPublished(d: Desk, after: Desk, id: Id)
    requires d.published <= after.published && WasPublished(d, id)
    ensures WasPublished(after, id)
  {
    var j :| 0 <= j < |d.published| && d.published[j].id == id;
    assert after.published[j] == d.published[j];
  }

  lemma WrittenIsPublished(d: Desk, story: Story)
    requires story in d.published
    ensures WasPublished(d, story.id)
  {
    var j :| 0 <= j < |d.published| && d.published[j] == story;
  }

  lemma NextKeepsKnown(d: Desk, e: Event)
    requires Known(d)
    ensures Known(Next(d, e))
  {
    hide EmbedStickersInOverlay;
    hide WasPublished;
    hide IsArchived;
    hide Filter;
    var after := Next(d, e);
    forall i | 0 <= i < |after.state.archives| ensures WasPublished(after, after.state.archives[i].original) {
      if i < |d.state.archives| {
        StaysPublished(d, after, d.state.archives[i].original);
      } else {
        WrittenIsPublished(after, d.tickets[e.ticket].value.story);
      }
    }
    forall k | 0 <= k < |after.tickets| && after.tickets[k].Some? ensures after.tickets[k].value.story in after.published {
      if k < |d.tickets| {
        assert d.tickets[k] == after.tickets[k] && d.published <= after.published;
      }
    }
  }

  /** One event keeps the sources right exactly unless it archives a close-friends story for everyone. */
  lemma NextKeepsSourcesExactly(d: Desk, e: Event)
    requires Known(d) && SourcesRight(d)
    ensures SourcesRight(Next(d, e)) <==> !Widens(d, e)
  {
    hide EmbedStickersInOverlay;
    var after := Next(d, e);
    if Writes(d, e) {
      var t := d.tickets[e.ticket].value;
      var n := |d.state.archives|;
      var j :| 0 <= j < |d.published| && d.published[j] == t.story;
      assert after.state.archives[n] == RowOf(e.world, t.story, SourceFor(t.who, t.story));
      assert after.state.archives[n].original == after.published[j].id;
    }
  }

  ghost predicate SourcesRightThroughout(d: Desk, run: seq<Event>) {
    SourcesRight(Exec(d, run)) && (run != [] ==> SourcesRightThroughout(d, run[..|run| - 1]))
  }

  ghost predicate NoneWidened(d: Desk, run: seq<Event>) {
    run != [] ==> NoneWidened(d, run[..|run| - 1]) && !Widens(Exec(d, run[..|run| - 1]), run[|run| - 1])
  }

  lemma {:induction false} ExecKeepsKnown(d: Desk, run: seq<Event>)
    requires Known(d)
    ensures Known(Exec(d, run))
  {
    if run != [] {
      ExecKeepsKnown(d, run[..|run| - 1]);
      NextKeepsKnown(Exec(d, run[..|run| - 1]), run[|run| - 1]);
    }
  }

  /**
   * Over every interleaving each archive row keeps its story's audience exactly if no highlight and no
   * removal archives a story that was for close friends.
   */
  lemma {:induction false} SourcesAreRightExactly(d: Desk, run: seq<Event>)
    requires Known(d) && SourcesRight(d)
    ensures SourcesRightThroughout(d, run) <==> NoneWidened(d, run)
  {
    if run != [] {
      hide Known;
      hide SourcesRight;
      hide Widens;
      hide Next;
      var most := run[..|run| - 1];
      SourcesAreRightExactly(d, most);
      ExecKeepsKnown(d, most);
      if SourcesRight(Exec(d, most)) {
        NextKeepsSourcesExactly(Exec(d, most), run[|run| - 1]);
      }
    }
  }

  lemma HighlightArchives(story: Story, w: World)
    ensures Next(Next(Next(NO_STORIES, Post(story)), Check(0, Highlighting)), Write(0, w)) ==
      Desk(State([story], [RowOf(w, story, PUBLIC)]), [story], [None])
  {
    hide RowOf;
    var posted := Desk(State([story], []), [story], []);
    assert Next(NO_STORIES, Post(story)) == posted;
    var asked := posted.(tickets := [Some(Ticket(story, Highlighting))]);
    assert Next(posted, Check(0, Highlighting)) == asked;
  }

  lemma PassFindsTheRow(d: Desk, row: ArchiveRow, story: Story)
    requires d == Desk(State([story], [row]), [story], [None]) && row.original == story.id
    ensures Next(Next(d, Check(0, Expiring)), Delete(story.id)) == d.(state := State([], [row]))
  {
    assert d.state.archives[0].original == story.id;
    FilterOne(story, Without(story.id));
  }

  /** Highlighting one close-friends story archives it for everyone, and no later pass puts that right. */
  lemma HighlightWidensTheAudience(story: Story, w: World)
    requires story.audience == CLOSE_FRIENDS
    ensures var run := [Post(story), Check(0, Highlighting), Write(0, w), Check(0, Expiring), Delete(story.id)];
      && Exec(NO_STORIES, run).state == State([], [RowOf(w, story, PUBLIC)])
      && !SourcesRight(Exec(NO_STORIES, run))
  {
    hide Next;
    hide EmbedStickersInOverlay;
    var row := RowOf(w, story, PUBLIC);
    var run := [Post(story), Check(0, Highlighting), Write(0, w), Check(0, Expiring), Delete(story.id)];
    var kept := Desk(State([story], [row]), [story], [None]);
    FiveEvents(NO_STORIES, run);
    HighlightArchives(story, w);
    PassFindsTheRow(kept, row, story);
    var last := kept.(state := State([], [row]));
    assert last.state.archives[0].original == last.published[0].id;
  }

  // ---------------------------------------------------------------- the service

  class StoryArchiveService {
    var stories: seq<Story>
    var archives: seq<ArchiveRow>

    function View(): State
      reads this
    {
      State(stories, archives)
    }

    constructor (s: State)
      ensures View() == s
    {
      stories, archives := s.stories, s.archives;
    }

    method ArchiveFromStory(w: World, story: Story, source: Audience)
      modifies this`archives
      ensures IsArchived(archives, story.id) && old(archives) <= archives
      ensures old(OneRowEach(archives)) ==> OneRowEach(archives)
      ensures archives == Archived(old(archives), w, story, source)
    {
      if IsArchived(archives, story.id) { return; }
      var overlay := EmbedStickersInOverlay(story.overlay, StickersOf(w, story.id));
      archives := archives + [ArchiveRow(story.user, story.content, overlay, story.id, source)];
      assert archives[|archives| - 1].original == story.id;
    }

    /** Read the expired stories, then copy and delete them one by one. */
    method ArchiveExpiredStories(w: World, now: int) returns (archived: nat)
      requires DistinctIds(stories)
      modifies this
      ensures View() == ExpiryPass(old(View()), w, now)
      ensures archived == |old(stories)| - |stories|
      ensures DistinctIds(stories) && (old(OneRowEach(archives)) ==> OneRowEach(archives)) && old(archives) <= archives
      ensures forall s :: s in old(stories) ==>
        (s in stories <==> s.expiresAt >= now) && (s.expiresAt < now && Keeps(w, s.user) ==> IsArchived(archives, s.id))
    {
      hide Filter;
      hide EmbedStickersInOverlay;
      hide IsArchived;
      var expired := Filter(stories, Expired(now));
      ghost var copy := ToCopy(old(archives), w);
      FilterKeepsDistinct(stories, Expired(now), StoryId);
      archived := 0;
      var i := 0;
      NothingDeleted(old(stories), expired);
      NothingCopied(w, expired, copy);
      while i < |expired|
        invariant 0 <= i <= |expired| && archived == i
        invariant stories == Filter(old(stories), NotAmong(expired[..i]))
        invariant archives == old(archives) + Rows(w, Filter(expired[..i], copy))
      {
        var story := expired[i];
        CopyNext(old(archives), w, expired, i);
        DeleteNext(old(stories), expired, i);
        if story.user !in w.archiveEnabled || w.archiveEnabled[story.user] {
          ArchiveFromStory(w, story, if story.audience == CLOSE_FRIENDS then CLOSE_FRIENDS else PUBLIC);
        }
        stories := Filter(stories, Without(story.id));
        archived := archived + 1;
        i := i + 1;
      }
      assert expired[..i] == expired;
      OnlyTheLivingStay(old(stories), now);
      PassOutcome(old(View()), w, now);
    }
  }

  function NotAmong(gone: seq<Story>): Story -> bool {
    (s: Story) => forall k :: 0 <= k < |gone| ==> gone[k].id != s.id
  }

  lemma NothingDeleted(stories: seq<Story>, expired: seq<Story>)
    ensures stories == Filter(stories, NotAmong(expired[..0]))
  {
    FilterAll(stories, NotAmong(expired[..0]));
  }

  lemma NothingCopied(w: World, expired: seq<Story>, copy: Story -> bool)
    ensures Rows(w, Filter(expired[..0], copy)) == []
  {
    assert expired[..0] == [];
  }

  lemma StillNotArchived(archives: seq<ArchiveRow>, w: World, done: seq<Story>, id: Id)
    requires forall k :: 0 <= k < |done| ==> done[k].id != id
    ensures IsArchived(archives + Rows(w, done), id) == IsArchived(archives, id)
  {
    var soFar := archives + Rows(w, done);
    if IsArchived(archives, id) {
      var k :| 0 <= k < |archives| && archives[k].original == id;
      assert soFar[k].original == id;
    }
  }

  lemma CopyStep(archives: seq<ArchiveRow>, w: World, done: seq<Story>, s: Story)
    requires forall k :: 0 <= k < |done| ==> done[k].id != s.id
    ensures var soFar := archives + Rows(w, done);
      archives + Rows(w, done + if ToCopy(archives, w)(s) then [s] else []) ==
        if Keeps(w, s.user) then Archived(soFar, w, s, s.audience) else soFar
  {
    StillNotArchived(archives, w, done, s.id);
    hide IsArchived;
    hide RowOf;
    if ToCopy(archives, w)(s) {
      assert Rows(w, done + [s]) == Rows(w, done) + [RowOf(w, s, s.audience)];
    } else {
      assert done + [] == done;
    }
  }

  /** Copying the next expired story extends the closed form by one. */
  lemma CopyNext(archives: seq<ArchiveRow>, w: World, expired: seq<Story>, i: nat)
    requires DistinctIds(expired) && i < |expired|
    ensures var copy := ToCopy(archives, w); var s := expired[i]; var soFar := archives + Rows(w, Filter(expired[..i], copy));
      archives + Rows(w, Filter(expired[..i + 1], copy)) ==
        if Keeps(w, s.user) then Archived(soFar, w, s, s.audience) else soFar
  {
    hide Filter;
    hide Archived;
    var copy, s := ToCopy(archives, w), expired[i];
    var done := Filter(expired[..i], copy);
    forall k | 0 <= k < |done| ensures done[k].id != s.id {
      assert done[k] in done;
    }
    hide ToCopy;
    hide Rows;
    assert expired[..i + 1] == expired[..i] + [s];
    FilterConcat(expired[..i], [s], copy);
    FilterOne(s, copy);
    CopyStep(archives, w, done, s);
  }

  lemma DeleteNext(stories: seq<Story>, expired: seq<Story>, i: nat)
    requires i < |expired|
    ensures Filter(Filter(stories, NotAmong(expired[..i])), Without(expired[i].id)) == Filter(stories, NotAmong(expired[..i + 1]))
  {
    forall x ensures NotAmong(expired[..i + 1])(x) <==> NotAmong(expired[..i])(x) && Without(expired[i].id)(x) {
      assert expired[..i + 1] == expired[..i] + [expired[i]];
    }
    FilterTwice(stories, NotAmong(expired[..i]), Without(expired[i].id), NotAmong(expired[..i + 1]));
  }

  lemma {:induction false} Partition(stories: seq<Story>, now: int)
    ensures |Filter(stories, Alive(now))| + |Filter(stories, Expired(now))| == |stories|
  {
    if stories != [] {
      Partition(stories[1..], now);
    }
  }

  lemma OnlyTheLivingStay(stories: seq<Story>, now: int)
    requires DistinctIds(stories)
    ensures Filter(stories, NotAmong(Filter(stories, Expired(now)))) == Filter(stories, Alive(now))
    ensures |Filter(stories, Expired(now))| == |stories| - |Filter(stories, Alive(now))|
  {
    var expired := Filter(stories, Expired(now));
    Partition(stories, now);
    forall s | s in stories ensures NotAmong(expired)(s) == Alive(now)(s) {
      if !Alive(now)(s) {
        assert s in expired;
        var k :| 0 <= k < |expired| && expired[k] == s;
      } else {
        forall k | 0 <= k < |expired| ensures expired[k].id != s.id {
          assert expired[k] in expired;
        }
      }
    }
    FilterSame(stories, NotAmong(expired), Alive(now));
  }
}
