/**
 * The life of a call: ringing, active, and one of three ends. Every handler, webhook and ring
 * timeout is one step on the table of calls, the pending ring timers and the chat.
 */
module Calls {
  import opened Optional
  import opened Sorting

  type Id = string
  type CallId = nat

  datatype Status = RINGING | ACCEPTED | ACTIVE | ENDED | REJECTED | MISSED

  datatype CallType = VIDEO | AUDIO

  /** A row of the call table; its position is its id. */
  datatype Call = Call(
    conversation: Id, initiator: Id, callee: Id, callType: CallType, status: Status, room: string,
    startedAt: int, answeredAt: Option<int>, endedAt: Option<int>, endReason: Option<string>, durationSec: Option<int>)
  {
    predicate Live() { status in {RINGING, ACCEPTED, ACTIVE} }

    predicate Involves(user: Id) { initiator == user || callee == user }
  }

  /** A call event in the chat. The call it tells about is kept with it. */
  datatype ChatEvent = ChatEvent(call: CallId, conversation: Id, sender: Id, recipient: Id, callType: CallType, told: Status)

  datatype State = State(calls: seq<Call>, timers: set<CallId>, chat: seq<ChatEvent>)

  /** What the handlers read from other tables: the video service, conversations and blocks. */
  datatype World = World(videoReady: bool, participants: map<Id, seq<Id>>, blocks: set<(Id, Id)>)

  datatype Outcome = Done | Unavailable | Forbidden | NotFound | BadRequest | RoomTaken

  datatype Command =
    | Create(world: World, user: Id, conversation: Id, callType: CallType, uuid: string, now: int)
    | Accept(world: World, user: Id, id: CallId, now: int)
    | Reject(user: Id, id: CallId, now: int)
    | Cancel(user: Id, id: CallId, now: int)
    | End(user: Id, id: CallId, now: int)
    | Webhook(event: string, room: string, now: int)
    | RingTimeout(id: CallId, now: int)

  // ---------------------------------------------------------------- what each command does

  predicate Busy(calls: seq<Call>, user: Id) {
    exists i :: 0 <= i < |calls| && calls[i].Live() && calls[i].Involves(user)
  }

  predicate InAnsweredCall(calls: seq<Call>, user: Id) {
    exists i :: 0 <= i < |calls| && calls[i].status in {ACCEPTED, ACTIVE} && calls[i].Involves(user)
  }

  predicate RoomUsed(calls: seq<Call>, room: string) {
    exists i :: 0 <= i < |calls| && calls[i].room == room
  }

  function FirstOther(people: seq<Id>, user: Id): (r: Option<Id>)
    ensures r.Some? ==> r.value in people && r.value != user
    ensures r.None? ==> forall i :: 0 <= i < |people| ==> people[i] == user
  {
    if people == [] then None else if people[0] != user then Some(people[0]) else FirstOther(people[1..], user)
  }

  function People(w: World, conversation: Id): seq<Id> {
    if conversation in w.participants then w.participants[conversation] else []
  }

  /** The checks of `create`, in order, up to the room name's unique column. */
  function CreateCheck(s: State, w: World, user: Id, conversation: Id): Outcome {
    var other := FirstOther(People(w, conversation), user);
    if !w.videoReady then Unavailable
    else if user !in People(w, conversation) then Forbidden
    else if Busy(s.calls, user) then BadRequest
    else if other.None? then BadRequest
    else if (user, other.value) in w.blocks || (other.value, user) in w.blocks then Forbidden
    else if Busy(s.calls, other.value) then BadRequest
    else Done
  }

  /** The write of `create`: the new row and its ring timer. */
  function Rung(s: State, conversation: Id, user: Id, other: Id, callType: CallType, room: string, now: int): State {
    s.(calls := s.calls + [Call(conversation, user, other, callType, RINGING, room, now, None, None, None, None)],
       timers := s.timers + {|s.calls|})
  }

  function CreateStep(s: State, w: World, user: Id, conversation: Id, callType: CallType, uuid: string, now: int): (State, Outcome) {
    var other := FirstOther(People(w, conversation), user);
    var check := CreateCheck(s, w, user, conversation);
    if check != Done || other.None? then (s, check)
    else if RoomUsed(s.calls, "call-" + uuid) then (s, RoomTaken)
    else (Rung(s, conversation, user, other.value, callType, "call-" + uuid, now), Done)
  }

  /** `Math.round` of milliseconds as seconds, halves up, and never negative. */
  function Duration(from: int, to: int): int {
    var rounded := (to - from + 500) / 1000;
    if rounded > 0 then rounded else 0
  }

  function Closed(c: Call, status: Status, reason: string, endedBy: string, now: int): Call {
    c.(status := status, endedAt := Some(now), endReason := Some(reason + ":" + endedBy),
       durationSec := if c.answeredAt.Some? then Some(Duration(c.answeredAt.value, now)) else None)
  }

  function Telling(id: CallId, c: Call, told: Status): ChatEvent {
    ChatEvent(id, c.conversation, c.initiator, c.callee, c.callType, told)
  }

  /** The row is rewritten, its timer dropped, and the chat told or not. */
  function Rewrite(s: State, id: CallId, row: Call, tell: bool): State
    requires id < |s.calls|
  {
    State(s.calls[id := row], s.timers - {id}, if tell then s.chat + [Telling(id, s.calls[id], row.status)] else s.chat)
  }

  function AcceptStep(s: State, w: World, user: Id, id: CallId, now: int): (State, Outcome) {
    if !w.videoReady then (s, Unavailable)
    else if id >= |s.calls| then (s, NotFound)
    else if s.calls[id].callee != user then (s, Forbidden)
    else if s.calls[id].status != RINGING then (s, BadRequest)
    else if InAnsweredCall(s.calls, user) then (s, BadRequest)
    else (Rewrite(s, id, s.calls[id].(status := ACTIVE, answeredAt := Some(now)), false), Done)
  }

  function RejectStep(s: State, user: Id, id: CallId, now: int): (State, Outcome) {
    if id >= |s.calls| then (s, NotFound)
    else if s.calls[id].callee != user then (s, Forbidden)
    else if s.calls[id].status != RINGING then (s, BadRequest)
    else (Rewrite(s, id, Closed(s.calls[id], REJECTED, "rejected", user, now), true), Done)
  }

  function CancelStep(s: State, user: Id, id: CallId, now: int): (State, Outcome) {
    if id >= |s.calls| then (s, NotFound)
    else if s.calls[id].initiator != user then (s, Forbidden)
    else if s.calls[id].status != RINGING then (s, BadRequest)
    else (Rewrite(s, id, Closed(s.calls[id], ENDED, "cancelled", user, now), false), Done)
  }

  function EndStep(s: State, user: Id, id: CallId, now: int): (State, Outcome) {
    if id >= |s.calls| then (s, NotFound)
    else if !s.calls[id].Involves(user) then (s, Forbidden)
    else if !s.calls[id].Live() then (s, Done)
    else (Rewrite(s, id, Closed(s.calls[id], ENDED, "ended", user, now), s.calls[id].status == ACTIVE), Done)
  }

  /** The position of the call with this room name, or the table's length. */
  function FindRoom(calls: seq<Call>, room: string): (i: CallId)
    ensures i <= |calls|
    ensures i < |calls| ==> calls[i].room == room
    ensures forall k :: 0 <= k < i ==> calls[k].room != room
  {
    FirstWhere(calls, (c: Call) => c.room == room)
  }

  const ROOM_PREFIX := "call-"

  function WebhookStep(s: State, event: string, room: string, now: int): State {
    var id := FindRoom(s.calls, room);
    if !(ROOM_PREFIX <= room) || id >= |s.calls| then s
    else
      var active := s.calls[id].status == ACTIVE;
      if s.calls[id].Live() && (event == "room_finished" || (event == "participant_left" && active))
      then Rewrite(s, id, Closed(s.calls[id], ENDED, "ended", "livekit-webhook", now), active)
      else s
  }

  function MissedStep(s: State, id: CallId, now: int): State {
    if id >= |s.calls| || s.calls[id].status != RINGING then s
    else Rewrite(s, id, s.calls[id].(status := MISSED, endedAt := Some(now), endReason := Some("timeout")), true)
  }

  function Step(s: State, c: Command): (State, Outcome) {
    match c
    case Create(w, user, conversation, callType, uuid, now) => CreateStep(s, w, user, conversation, callType, uuid, now)
    case Accept(w, user, id, now) => AcceptStep(s, w, user, id, now)
    case Reject(user, id, now) => RejectStep(s, user, id, now)
    case Cancel(user, id, now) => CancelStep(s, user, id, now)
    case End(user, id, now) => EndStep(s, user, id, now)
    case Webhook(event, room, now) => (WebhookStep(s, event, room, now), Done)
    case RingTimeout(id, now) =>
      var after := MissedStep(s, id, now);
      (after.(timers := after.timers - {id}), Done)
  }

  function Run(s: State, commands: seq<Command>): State {
    if commands == [] then s else Step(Run(s, commands[..|commands| - 1]), commands[|commands| - 1]).0
  }

  const EMPTY := State([], {}, [])

  // ---------------------------------------------------------------- the invariant

  function About(id: CallId): ChatEvent -> bool { (e: ChatEvent) => e.call == id }

  /** What the chat should hold about a call. */
  function Told(id: CallId, c: Call): seq<ChatEvent> {
    if c.status == REJECTED || c.status == MISSED || (c.status == ENDED && c.answeredAt.Some?)
    then [Telling(id, c, c.status)]
    else []
  }

  /** The length of an answered call is its seconds rounded to the nearest, or zero if the clock went back. */
  ghost predicate GoodDuration(c: Call) {
    match (c.answeredAt, c.endedAt, c.durationSec)
    case (Some(from), Some(to), Some(d)) => if to < from then d == 0 else -500 <= to - from - 1000 * d < 500 && d >= 0
    case (Some(_), Some(_), None) => false
    case (_, _, d) => d.None?
  }

  ghost predicate GoodRow(c: Call) {
    && c.initiator != c.callee
    && c.status != ACCEPTED
    && (c.endedAt.Some? <==> !c.Live())
    && (c.endReason.Some? <==> !c.Live())
    && (c.status in {RINGING, REJECTED, MISSED} ==> c.answeredAt.None?)
    && (c.status == ACTIVE ==> c.answeredAt.Some?)
    && GoodDuration(c)
  }

  ghost predicate Settled(s: State, id: CallId)
    requires id < |s.calls|
  {
    && GoodRow(s.calls[id])
    && (id in s.timers <==> s.calls[id].status == RINGING)
    && Filter(s.chat, About(id)) == Told(id, s.calls[id])
  }

  /** Two calls that are both live share no participant. */
  ghost predicate Exclusive(calls: seq<Call>) {
    forall i, j, user :: 0 <= i < j < |calls| && calls[i].Live() && calls[j].Live() && calls[i].Involves(user)
      ==> !calls[j].Involves(user)
  }

  ghost predicate DistinctRooms(calls: seq<Call>) {
    forall i, j :: 0 <= i < j < |calls| ==> calls[i].room != calls[j].room
  }

  ghost predicate Inv(s: State) {
    && (forall id :: 0 <= id < |s.calls| ==> Settled(s, id))
    && (forall id :: id in s.timers ==> id < |s.calls|)
    && (forall e :: e in s.chat ==> e.call < |s.calls|)
    && Exclusive(s.calls)
    && DistinctRooms(s.calls)
    && (forall i :: 0 <= i < |s.calls| ==> ROOM_PREFIX <= s.calls[i].room)
  }

  lemma RungKeepsInv(s: State, conversation: Id, user: Id, other: Id, callType: CallType, room: string, now: int)
    requires Inv(s) && user != other && !Busy(s.calls, user) && !Busy(s.calls, other) && !RoomUsed(s.calls, room) && ROOM_PREFIX <= room
    ensures Inv(Rung(s, conversation, user, other, callType, room, now))
  {
    var after := Rung(s, conversation, user, other, callType, room, now);
    FilterNone(s.chat, About(|s.calls|));
    forall id | 0 <= id < |after.calls| ensures Settled(after, id) {
      if id < |s.calls| {
        assert Settled(s, id);
      }
    }
  }

  lemma ChatAfter(s: State, id: CallId, row: Call, tell: bool, other: CallId)
    requires id < |s.calls|
    ensures Filter(Rewrite(s, id, row, tell).chat, About(other)) ==
      Filter(s.chat, About(other)) + if tell && other == id then [Telling(id, s.calls[id], row.status)] else []
  {
    var e := Telling(id, s.calls[id], row.status);
    if tell {
      FilterConcat(s.chat, [e], About(other));
    }
  }

  /** Answering or closing a live call keeps every other call's story and tells the right one about this. */
  lemma RewriteKeepsInv(s: State, id: CallId, row: Call, tell: bool)
    requires Inv(s) && id < |s.calls| && s.calls[id].Live() && GoodRow(row) && row.status != RINGING
    requires row.initiator == s.calls[id].initiator && row.callee == s.calls[id].callee && row.room == s.calls[id].room
    requires Told(id, row) == if tell then [Telling(id, s.calls[id], row.status)] else []
    ensures Inv(Rewrite(s, id, row, tell))
  {
    hide Filter;
    var after := Rewrite(s, id, row, tell);
    assert Settled(s, id);
    assert Told(id, s.calls[id]) == [];
    forall k | 0 <= k < |after.calls| ensures Settled(after, k) {
      assert Settled(s, k);
      ChatAfter(s, id, row, tell, k);
    }
  }

  lemma CloseKeepsInv(s: State, id: CallId, status: Status, reason: string, endedBy: string, now: int, tell: bool)
    requires Inv(s) && id < |s.calls| && s.calls[id].Live()
    requires status == ENDED || (status == REJECTED && s.calls[id].status == RINGING)
    requires tell <==> status == REJECTED || s.calls[id].status == ACTIVE
    ensures Inv(Rewrite(s, id, Closed(s.calls[id], status, reason, endedBy, now), tell))
  {
    assert Settled(s, id);
    RewriteKeepsInv(s, id, Closed(s.calls[id], status, reason, endedBy, now), tell);
  }

  lemma AcceptKeepsInv(s: State, w: World, user: Id, id: CallId, now: int)
    requires Inv(s)
    ensures Inv(AcceptStep(s, w, user, id, now).0)
  {
    if AcceptStep(s, w, user, id, now).1 == Done {
      assert Settled(s, id);
      RewriteKeepsInv(s, id, s.calls[id].(status := ACTIVE, answeredAt := Some(now)), false);
    }
  }

  lemma MissedKeepsInv(s: State, id: CallId, now: int)
    requires Inv(s)
    ensures Inv(MissedStep(s, id, now)) && id !in MissedStep(s, id, now).timers
  {
    if id < |s.calls| {
      assert Settled(s, id);
      if s.calls[id].status == RINGING {
        RewriteKeepsInv(s, id, s.calls[id].(status := MISSED, endedAt := Some(now), endReason := Some("timeout")), true);
      }
    }
  }

  /** Every command keeps the invariant. */
  lemma {:induction false} StepKeepsInv(s: State, c: Command)
    requires Inv(s)
    ensures Inv(Step(s, c).0)
  {
    hide Inv;
    match c {
      case Create(w, user, conversation, callType, uuid, now) =>
        var other := FirstOther(People(w, conversation), user);
        if Step(s, c).1 == Done && other.Some? {
          RungKeepsInv(s, conversation, user, other.value, callType, "call-" + uuid, now);
        }
      case Accept(w, user, id, now) =>
        AcceptKeepsInv(s, w, user, id, now);
      case Reject(user, id, now) =>
        if Step(s, c).1 == Done {
          CloseKeepsInv(s, id, REJECTED, "rejected", user, now, true);
        }
      case Cancel(user, id, now) =>
        if Step(s, c).1 == Done {
          CloseKeepsInv(s, id, ENDED, "cancelled", user, now, false);
        }
      case End(user, id, now) =>
        if Step(s, c).1 == Done && s.calls[id].Live() {
          CloseKeepsInv(s, id, ENDED, "ended", user, now, s.calls[id].status == ACTIVE);
        }
      case Webhook(event, room, now) =>
        var id := FindRoom(s.calls, room);
        if id < |s.calls| && s.calls[id].Live() {
          CloseKeepsInv(s, id, ENDED, "ended", "livekit-webhook", now, s.calls[id].status == ACTIVE);
        }
      case RingTimeout(id, now) =>
        MissedKeepsInv(s, id, now);
        assert Step(s, c).0 == MissedStep(s, id, now);
    }
  }

  lemma KeptInv(s: State, c: Command)
    ensures Inv(s) ==> Inv(Step(s, c).0)
  {
    if Inv(s) {
      StepKeepsInv(s, c);
    }
  }

  lemma {:induction false} RunKeepsInv(commands: seq<Command>)
    ensures Inv(Run(EMPTY, commands))
  {
    if commands != [] {
      RunKeepsInv(commands[..|commands| - 1]);
      StepKeepsInv(Run(EMPTY, commands[..|commands| - 1]), commands[|commands| - 1]);
    }
  }

  // ---------------------------------------------------------------- theorems over every run

  /** In every reachable state a user takes part in at most one call that is ringing or active. */
  lemma {:induction false} OneLiveCallPerUser(commands: seq<Command>, user: Id, i: CallId, j: CallId)
    requires var calls := Run(EMPTY, commands).calls;
      i < |calls| && j < |calls| && calls[i].Live() && calls[j].Live() && calls[i].Involves(user) && calls[j].Involves(user)
    ensures i == j
  {
    RunKeepsInv(commands);
  }

  lemma CalleeIsFree(s: State, id: CallId, w: World, now: int)
    requires Inv(s) && id < |s.calls| && s.calls[id].status == RINGING && w.videoReady
    ensures !InAnsweredCall(s.calls, s.calls[id].callee)
  {
    var callee := s.calls[id].callee;
    assert s.calls[id].Live() && s.calls[id].Involves(callee);
    forall i | 0 <= i < |s.calls| && s.calls[i].status in {ACCEPTED, ACTIVE} ensures !s.calls[i].Involves(callee) {
      assert s.calls[i].Live() && i != id;
    }
  }

  /** So the active-call check inside `accept` never turns away the callee of a ringing call. */
  lemma CalleeCanAccept(commands: seq<Command>, id: CallId, w: World, now: int)
    requires var s := Run(EMPTY, commands); id < |s.calls| && s.calls[id].status == RINGING && w.videoReady
    ensures var s := Run(EMPTY, commands);
      Step(s, Accept(w, s.calls[id].callee, id, now)).1 == Done
  {
    RunKeepsInv(commands);
    CalleeIsFree(Run(EMPTY, commands), id, w, now);
    hide Run;
    hide Inv;
    hide InAnsweredCall;
  }

  /**
   * In every reachable state each row, its timer and its chat event agree: `endedAt` exactly when
   * finished, a duration exactly when also answered, a timer exactly while ringing, and one chat
   * event exactly when it was rejected, missed or ended from active.
   */
  lemma {:induction false} EveryCallIsSettled(commands: seq<Command>, id: CallId)
    requires id < |Run(EMPTY, commands).calls|
    ensures var s := Run(EMPTY, commands); var c := s.calls[id];
      && (c.endedAt.Some? <==> !c.Live())
      && (c.durationSec.Some? <==> !c.Live() && c.answeredAt.Some?)
      && GoodDuration(c)
      && (id in s.timers <==> c.status == RINGING)
      && Filter(s.chat, About(id)) == Told(id, c)
  {
    RunKeepsInv(commands);
    assert Settled(Run(EMPTY, commands), id);
  }

  /** A row moves only at the request of its own parties, its room, or its timer. */
  lemma OnlyItsPartiesMoveIt(s: State, c: Command, id: CallId)
    requires id < |s.calls| && Step(s, c).0.calls[id] != s.calls[id]
    ensures match c
      case Create(_, _, _, _, _, _) => false
      case Accept(_, user, k, _) => k == id && user == s.calls[id].callee
      case Reject(user, k, _) => k == id && user == s.calls[id].callee
      case Cancel(user, k, _) => k == id && user == s.calls[id].initiator
      case End(user, k, _) => k == id && s.calls[id].Involves(user)
      case Webhook(_, room, _) => room == s.calls[id].room
      case RingTimeout(k, _) => k == id && s.calls[id].status == RINGING
  {
  }

  function Rank(status: Status): nat {
    match status
    case RINGING => 0
    case ACCEPTED => 1
    case ACTIVE => 2
    case _ => 3
  }

  lemma StepMovesForward(s: State, c: Command, id: CallId)
    requires id < |s.calls|
    ensures var after := Step(s, c).0.calls;
      && id < |after|
      && Rank(s.calls[id].status) <= Rank(after[id].status)
      && (!s.calls[id].Live() ==> after[id] == s.calls[id])
  {
  }

  lemma {:induction false} RunConcat(s: State, a: seq<Command>, b: seq<Command>)
    ensures Run(s, a + b) == Run(Run(s, a), b)
    decreases |b|
  {
    if b == [] {
      assert a + b == a;
    } else {
      assert (a + b)[..|a + b| - 1] == a + b[..|b| - 1];
      RunConcat(s, a, b[..|b| - 1]);
    }
  }

  lemma {:induction false} RunMovesForward(s: State, commands: seq<Command>, id: CallId)
    requires id < |s.calls|
    ensures var after := Run(s, commands).calls;
      && id < |after|
      && Rank(s.calls[id].status) <= Rank(after[id].status)
      && (!s.calls[id].Live() ==> after[id] == s.calls[id])
  {
    if commands != [] {
      RunMovesForward(s, commands[..|commands| - 1], id);
      StepMovesForward(Run(s, commands[..|commands| - 1]), commands[|commands| - 1], id);
    }
  }

  /** Ended, rejected and missed are final: neither the row nor what the chat says of it changes again. */
  lemma FinishedForGood(past: seq<Command>, future: seq<Command>, id: CallId)
    requires id < |Run(EMPTY, past).calls| && !Run(EMPTY, past).calls[id].Live()
    ensures var before, after := Run(EMPTY, past), Run(EMPTY, past + future);
      && id < |after.calls| && after.calls[id] == before.calls[id]
      && Filter(after.chat, About(id)) == Filter(before.chat, About(id))
  {
    RunConcat(EMPTY, past, future);
    RunMovesForward(Run(EMPTY, past), future, id);
    EveryCallIsSettled(past, id);
    EveryCallIsSettled(past + future, id);
  }

  /** Whatever closes a call leaves both its parties free for the next one. */
  lemma ClosingFreesBoth(commands: seq<Command>, c: Command, id: CallId, user: Id)
    requires var s := Run(EMPTY, commands); id < |s.calls| && s.calls[id].Live() && s.calls[id].Involves(user)
    requires id < |Step(Run(EMPTY, commands), c).0.calls| && !Step(Run(EMPTY, commands), c).0.calls[id].Live()
    ensures !Busy(Step(Run(EMPTY, commands), c).0.calls, user)
  {
    var s := Run(EMPTY, commands);
    var after := Step(s, c).0;
    RunKeepsInv(commands);
    forall i | 0 <= i < |after.calls| && after.calls[i].Live() ensures !after.calls[i].Involves(user) {
      OneRowMoves(s, c, id, i);
    }
  }

  lemma OneRowMoves(s: State, c: Command, id: CallId, other: CallId)
    requires id < |s.calls| && s.calls[id].Live() && !Step(s, c).0.calls[id].Live()
    requires other < |Step(s, c).0.calls| && other != id
    ensures other < |s.calls| && Step(s, c).0.calls[other] == s.calls[other]
  {
  }

  /** No live call is stuck: its pending timer ends a ringing one, a participant leaving ends an active one. */
  lemma {:induction false} LiveCallsCanEnd(commands: seq<Command>, id: CallId, now: int)
    requires id < |Run(EMPTY, commands).calls| && Run(EMPTY, commands).calls[id].Live()
    ensures var s := Run(EMPTY, commands); var c := s.calls[id];
      || (c.status == RINGING && id in s.timers && Step(s, RingTimeout(id, now)).0.calls[id].status == MISSED)
      || (c.status == ACTIVE && Step(s, Webhook("participant_left", c.room, now)).0.calls[id].status == ENDED)
  {
    var s := Run(EMPTY, commands);
    RunKeepsInv(commands);
    assert Settled(s, id);
    assert FindRoom(s.calls, s.calls[id].room) == id;
  }

  // ---------------------------------------------------------------- what the handlers answer and write

  /** The user takes part in a call with one of these statuses. */
  ghost predicate IsIn(calls: seq<Call>, user: Id, statuses: set<Status>) {
    exists c :: c in calls && c.status in statuses && user in {c.initiator, c.callee}
  }

  lemma IsInExactly(calls: seq<Call>, user: Id)
    ensures Busy(calls, user) <==> IsIn(calls, user, {RINGING, ACCEPTED, ACTIVE})
    ensures InAnsweredCall(calls, user) <==> IsIn(calls, user, {ACCEPTED, ACTIVE})
  {
    if c :| c in calls && c.status in {RINGING, ACCEPTED, ACTIVE} && user in {c.initiator, c.callee} {
      var i :| 0 <= i < |calls| && calls[i] == c;
    }
    if c :| c in calls && c.status in {ACCEPTED, ACTIVE} && user in {c.initiator, c.callee} {
      var i :| 0 <= i < |calls| && calls[i] == c;
    }
  }

  lemma RoomUsedExactly(calls: seq<Call>, room: string)
    ensures RoomUsed(calls, room) <==> exists c :: c in calls && c.room == room
  {
    if c :| c in calls && c.room == room {
      var i :| 0 <= i < |calls| && calls[i] == c;
    }
  }

  /**
   * A call rings exactly if the video service is up, the caller is in the conversation with someone
   * else, neither is in a call, neither blocked the other, and the room is new; each refusal says why.
   */
  lemma CreateAnswersExactly(s: State, w: World, user: Id, conversation: Id, callType: CallType, uuid: string, now: int)
    ensures var (after, r) := Step(s, Create(w, user, conversation, callType, uuid, now));
      var people := if conversation in w.participants then w.participants[conversation] else [];
      var callee := FirstOther(people, user);
      var blocked := callee.Some? && ((user, callee.value) in w.blocks || (callee.value, user) in w.blocks);
      var busy := IsIn(s.calls, user, {RINGING, ACCEPTED, ACTIVE});
      var calleeBusy := callee.Some? && IsIn(s.calls, callee.value, {RINGING, ACCEPTED, ACTIVE});
      var used := exists c :: c in s.calls && c.room == "call-" + uuid;
      && (r == Unavailable <==> !w.videoReady)
      && (r == Forbidden <==> w.videoReady && (user !in people || (!busy && blocked)))
      && (r == BadRequest <==> w.videoReady && user in people && (busy || callee.None? || (!blocked && calleeBusy)))
      && (r == RoomTaken <==>
            w.videoReady && user in people && !busy && callee.Some? && !blocked && !calleeBusy && used)
      && (r == Done <==>
            w.videoReady && user in people && !busy && callee.Some? && !blocked && !calleeBusy && !used)
      && after == if r != Done then s else
          State(s.calls + [Call(conversation, user, callee.value, callType, RINGING, "call-" + uuid, now, None, None, None, None)],
                s.timers + {|s.calls|}, s.chat)
  {
    var other := FirstOther(People(w, conversation), user);
    IsInExactly(s.calls, user);
    RoomUsedExactly(s.calls, "call-" + uuid);
    if other.Some? {
      IsInExactly(s.calls, other.value);
    }
    hide IsIn;
    hide Busy;
    hide RoomUsed;
    hide FirstOther;
  }

  /** Only the callee of a ringing call accepts it, and only from outside any answered call. */
  lemma AcceptAnswersExactly(s: State, w: World, user: Id, id: CallId, now: int)
    ensures var (after, r) := Step(s, Accept(w, user, id, now));
      && (r == Unavailable <==> !w.videoReady)
      && (r == NotFound <==> w.videoReady && |s.calls| <= id)
      && (r == Forbidden <==> w.videoReady && id < |s.calls| && user != s.calls[id].callee)
      && (r == BadRequest <==>
            w.videoReady && id < |s.calls| && user == s.calls[id].callee
            && (s.calls[id].status != RINGING || IsIn(s.calls, user, {ACCEPTED, ACTIVE})))
      && r in {Done, Unavailable, NotFound, Forbidden, BadRequest}
      && after == if r != Done then s else
          State(s.calls[id := s.calls[id].(status := ACTIVE, answeredAt := Some(now))], s.timers - {id}, s.chat)
  {
    IsInExactly(s.calls, user);
    hide IsIn;
    hide InAnsweredCall;
  }

  /** The seconds of an answered call, rounded half up; none for one that was never answered. */
  ghost function Seconds(c: Call, now: int): Option<int> {
    match c.answeredAt
    case None => None
    case Some(from) => Some(if now - from < 500 then 0 else (now - from + 500) / 1000)
  }

  /** The row once it is over, with its reason and who ended it. */
  ghost function Over(c: Call, status: Status, reason: string, now: int): Call {
    Call(c.conversation, c.initiator, c.callee, c.callType, status, c.room, c.startedAt, c.answeredAt,
         Some(now), Some(reason), Seconds(c, now))
  }

  /** The message in the conversation, from the caller to the callee. */
  ghost function Message(id: CallId, c: Call, told: Status): ChatEvent {
    ChatEvent(id, c.conversation, c.initiator, c.callee, c.callType, told)
  }

  lemma OverIs(c: Call, status: Status, reason: string, endedBy: string, now: int)
    ensures Closed(c, status, reason, endedBy, now) == Over(c, status, reason + ":" + endedBy, now)
  {
  }

  /** The callee rejects and the caller cancels, and only while it rings. */
  lemma RejectAndCancelAnswerExactly(s: State, user: Id, id: CallId, now: int)
    ensures var (after, r) := Step(s, Reject(user, id, now));
      && (r == NotFound <==> |s.calls| <= id) && r in {Done, NotFound, Forbidden, BadRequest}
      && (r == Forbidden <==> id < |s.calls| && user != s.calls[id].callee)
      && (r == BadRequest <==> id < |s.calls| && user == s.calls[id].callee && s.calls[id].status != RINGING)
      && after == if r != Done then s else
          State(s.calls[id := Over(s.calls[id], REJECTED, "rejected:" + user, now)], s.timers - {id},
                s.chat + [Message(id, s.calls[id], REJECTED)])
    ensures var (after, r) := Step(s, Cancel(user, id, now));
      && (r == NotFound <==> |s.calls| <= id) && r in {Done, NotFound, Forbidden, BadRequest}
      && (r == Forbidden <==> id < |s.calls| && user != s.calls[id].initiator)
      && (r == BadRequest <==> id < |s.calls| && user == s.calls[id].initiator && s.calls[id].status != RINGING)
      && after == if r != Done then s else
          State(s.calls[id := Over(s.calls[id], ENDED, "cancelled:" + user, now)], s.timers - {id}, s.chat)
  {
    if id < |s.calls| {
      OverIs(s.calls[id], REJECTED, "rejected", user, now);
      OverIs(s.calls[id], ENDED, "cancelled", user, now);
      assert "rejected" + ":" + user == "rejected:" + user && "cancelled" + ":" + user == "cancelled:" + user;
    }
    hide Closed;
    hide Over;
  }

  /** A participant ends a live call; the chat hears of it if it was active. */
  lemma EndAnswersExactly(s: State, user: Id, id: CallId, now: int)
    ensures var (after, r) := Step(s, End(user, id, now));
      && (r == NotFound <==> |s.calls| <= id) && r in {Done, NotFound, Forbidden}
      && (r == Forbidden <==> id < |s.calls| && user !in {s.calls[id].initiator, s.calls[id].callee})
      && after == if r != Done || s.calls[id].status !in {RINGING, ACCEPTED, ACTIVE} then s else
          State(s.calls[id := Over(s.calls[id], ENDED, "ended:" + user, now)], s.timers - {id},
                if s.calls[id].status == ACTIVE then s.chat + [Message(id, s.calls[id], ENDED)] else s.chat)
  {
    if id < |s.calls| {
      OverIs(s.calls[id], ENDED, "ended", user, now);
      assert "ended" + ":" + user == "ended:" + user;
    }
    hide Closed;
    hide Over;
  }

  lemma RewriteIs(s: State, id: CallId, row: Call, tell: bool)
    requires id < |s.calls|
    ensures Rewrite(s, id, row, tell) ==
      State(s.calls[id := row], s.timers - {id}, if tell then s.chat + [Message(id, s.calls[id], row.status)] else s.chat)
  {
  }

  lemma WebhookReason(c: Call, now: int)
    ensures Closed(c, ENDED, "ended", "livekit-webhook", now) == Over(c, ENDED, "ended:livekit-webhook", now)
  {
    hide Over;
    hide Closed;
    OverIs(c, ENDED, "ended", "livekit-webhook", now);
    assert "ended" + ":" + "livekit-webhook" == "ended:livekit-webhook";
  }

  /** A finished room ends its live call, and someone leaving ends an active one; no other event moves anything. */
  lemma WebhookWritesExactly(s: State, event: string, room: string, now: int)
    ensures var after := Step(s, Webhook(event, room, now)).0; var id := FindRoom(s.calls, room);
      after == if "call-" <= room && id < |s.calls|
          && ((event == "room_finished" && s.calls[id].Live()) || (event == "participant_left" && s.calls[id].status == ACTIVE))
        then State(s.calls[id := Over(s.calls[id], ENDED, "ended:livekit-webhook", now)], s.timers - {id},
                   if s.calls[id].status == ACTIVE then s.chat + [Message(id, s.calls[id], ENDED)] else s.chat)
        else s
  {
    var id := FindRoom(s.calls, room);
    if id < |s.calls| {
      var over := Over(s.calls[id], ENDED, "ended:livekit-webhook", now);
      WebhookReason(s.calls[id], now);
      RewriteIs(s, id, over, s.calls[id].status == ACTIVE);
    }
    hide Closed;
    hide Over;
    hide Rewrite;
    hide FindRoom;
    hide Message;
  }

  /** A timer that fires makes a call that still rings missed, tells the chat, and is gone. */
  lemma TimeoutWritesExactly(s: State, id: CallId, now: int)
    ensures Step(s, RingTimeout(id, now)).0 ==
      if id < |s.calls| && s.calls[id].status == RINGING
      then State(s.calls[id := s.calls[id].(status := MISSED, endedAt := Some(now), endReason := Some("timeout"))],
                 s.timers - {id}, s.chat + [Message(id, s.calls[id], MISSED)])
      else s.(timers := s.timers - {id})
  {
  }

  // ---------------------------------------------------------------- creation in two steps

  /** A creation whose checks have passed and whose row is still to be written. */
  datatype Ticket = Ticket(conversation: Id, user: Id, other: Id, callType: CallType)

  datatype Desk = Desk(state: State, tickets: seq<Option<Ticket>>)

  /** Creations in two steps, and every other command in one. */
  datatype Event =
    | Check(world: World, user: Id, conversation: Id, callType: CallType)
    | Write(ticket: nat, uuid: string, now: int)
    | Do(command: Command)

  function Next(d: Desk, e: Event): Desk {
    match e
    case Check(w, user, conversation, callType) =>
      var other := FirstOther(People(w, conversation), user);
      if CreateCheck(d.state, w, user, conversation) != Done || other.None? then d
      else d.(tickets := d.tickets + [Some(Ticket(conversation, user, other.value, callType))])
    case Write(k, uuid, now) =>
      if k >= |d.tickets| || d.tickets[k].None? then d
      else
        var t := d.tickets[k].value;
        var freed := d.tickets[k := None];
        if RoomUsed(d.state.calls, "call-" + uuid) then Desk(d.state, freed)
        else Desk(Rung(d.state, t.conversation, t.user, t.other, t.callType, "call-" + uuid, now), freed)
    case Do(c) => if c.Create? then d else d.(state := Step(d.state, c).0)
  }

  function Exec(d: Desk, run: seq<Event>): Desk {
    if run == [] then d else Next(Exec(d, run[..|run| - 1]), run[|run| - 1])
  }

  const NO_CALLS := Desk(EMPTY, [])

  /** A row is about to be written for someone who has become busy since the check. */
  predicate WritesBusy(d: Desk, e: Event) {
    && e.Write? && e.ticket < |d.tickets| && d.tickets[e.ticket].Some?
    && !RoomUsed(d.state.calls, "call-" + e.uuid)
    && (Busy(d.state.calls, d.tickets[e.ticket].value.user) || Busy(d.state.calls, d.tickets[e.ticket].value.other))
  }

  /** A new row keeps exclusion exactly if neither party is busy when it is written. */
  lemma RungKeepsExclusiveExactly(s: State, conversation: Id, user: Id, other: Id, callType: CallType, room: string, now: int)
    requires Exclusive(s.calls)
    ensures Exclusive(Rung(s, conversation, user, other, callType, room, now).calls) <==>
      !Busy(s.calls, user) && !Busy(s.calls, other)
  {
    var after := Rung(s, conversation, user, other, callType, room, now).calls;
    var n := |s.calls|;
    assert after[n].Live() && after[n].Involves(user) && after[n].Involves(other);
    forall who | who in [user, other] && Busy(s.calls, who) ensures !Exclusive(after) {
      var i :| 0 <= i < n && s.calls[i].Live() && s.calls[i].Involves(who);
      assert after[i] == s.calls[i];
    }
    assert user in [user, other] && other in [user, other];
  }

  lemma RewriteKeepsExclusive(s: State, id: CallId, row: Call, tell: bool)
    requires Exclusive(s.calls) && id < |s.calls| && (row.Live() ==> s.calls[id].Live())
    requires row.initiator == s.calls[id].initiator && row.callee == s.calls[id].callee
    ensures Exclusive(Rewrite(s, id, row, tell).calls)
  {
  }

  lemma CommandKeepsExclusive(s: State, c: Command)
    requires Exclusive(s.calls) && !c.Create?
    ensures Exclusive(Step(s, c).0.calls)
  {
    hide Exclusive;
    match c {
      case Accept(w, user, id, now) =>
        if AcceptStep(s, w, user, id, now).1 == Done {
          RewriteKeepsExclusive(s, id, s.calls[id].(status := ACTIVE, answeredAt := Some(now)), false);
        }
      case Reject(user, id, now) =>
        if RejectStep(s, user, id, now).1 == Done {
          RewriteKeepsExclusive(s, id, Closed(s.calls[id], REJECTED, "rejected", user, now), true);
        }
      case Cancel(user, id, now) =>
        if CancelStep(s, user, id, now).1 == Done {
          RewriteKeepsExclusive(s, id, Closed(s.calls[id], ENDED, "cancelled", user, now), false);
        }
      case End(user, id, now) =>
        if EndStep(s, user, id, now).1 == Done && s.calls[id].Live() {
          RewriteKeepsExclusive(s, id, Closed(s.calls[id], ENDED, "ended", user, now), s.calls[id].status == ACTIVE);
        }
      case Webhook(event, room, now) =>
        var id := FindRoom(s.calls, room);
        if id < |s.calls| && s.calls[id].Live() {
          RewriteKeepsExclusive(s, id, Closed(s.calls[id], ENDED, "ended", "livekit-webhook", now), s.calls[id].status == ACTIVE);
        }
      case RingTimeout(id, now) =>
        if id < |s.calls| && s.calls[id].status == RINGING {
          RewriteKeepsExclusive(s, id, s.calls[id].(status := MISSED, endedAt := Some(now), endReason := Some("timeout")), true);
        }
    }
  }

  /** One event keeps exclusion exactly unless it writes a call of someone who has become busy. */
  lemma NextKeepsExclusiveExactly(d: Desk, e: Event)
    requires Exclusive(d.state.calls)
    ensures Exclusive(Next(d, e).state.calls) <==> !WritesBusy(d, e)
  {
    hide Exclusive;
    hide Busy;
    hide RoomUsed;
    hide Rung;
    hide Step;
    hide CreateCheck;
    match e {
      case Check(_, _, _, _) =>
      case Write(k, uuid, now) =>
        if k < |d.tickets| && d.tickets[k].Some? {
          var t := d.tickets[k].value;
          RungKeepsExclusiveExactly(d.state, t.conversation, t.user, t.other, t.callType, "call-" + uuid, now);
        }
      case Do(c) =>
        if !c.Create? {
          CommandKeepsExclusive(d.state, c);
        }
    }
  }

  /** Exclusion holds at every state of the run. */
  ghost predicate ExclusiveThroughout(d: Desk, run: seq<Event>) {
    Exclusive(Exec(d, run).state.calls) && (run != [] ==> ExclusiveThroughout(d, run[..|run| - 1]))
  }

  /** No write of the run concerns someone who has become busy since its check. */
  ghost predicate NoBusyWrite(d: Desk, run: seq<Event>) {
    run != [] ==> NoBusyWrite(d, run[..|run| - 1]) && !WritesBusy(Exec(d, run[..|run| - 1]), run[|run| - 1])
  }

  /**
   * With creation in two steps, no user is in two live calls at any state of a run exactly if both
   * parties of each new call are still free when its row is written.
   */
  lemma {:induction false} ExclusionHoldsExactly(d: Desk, run: seq<Event>)
    requires Exclusive(d.state.calls)
    ensures ExclusiveThroughout(d, run) <==> NoBusyWrite(d, run)
  {
    if run != [] {
      hide Exclusive;
      hide WritesBusy;
      hide Next;
      var most := run[..|run| - 1];
      ExclusionHoldsExactly(d, most);
      if Exclusive(Exec(d, most).state.calls) {
        NextKeepsExclusiveExactly(Exec(d, most), run[|run| - 1]);
      }
    }
  }

  /** Every other command is its one step. */
  lemma DoIsOneStep(d: Desk, c: Command)
    requires !c.Create?
    ensures Next(d, Do(c)) == Desk(Step(d.state, c).0, d.tickets)
  {
  }

  /** A check that is written at once is the one-step command. */
  lemma PromptWriteIsCreate(d: Desk, w: World, user: Id, conversation: Id, callType: CallType, uuid: string, now: int)
    ensures var checked := Next(d, Check(w, user, conversation, callType));
      var written := if checked == d then d else Next(checked, Write(|d.tickets|, uuid, now));
      written.state == Step(d.state, Create(w, user, conversation, callType, uuid, now)).0
  {
  }

  const PAIR := World(true, map["chat" := ["ana", "bo"]], {})

  lemma PairChecks()
    ensures FirstOther(People(PAIR, "chat"), "ana") == Some("bo") && FirstOther(People(PAIR, "chat"), "bo") == Some("ana")
    ensures CreateCheck(EMPTY, PAIR, "ana", "chat") == Done && CreateCheck(EMPTY, PAIR, "bo", "chat") == Done
  {
    assert FirstOther(["ana", "bo"], "ana") == FirstOther(["ana", "bo"][1..], "ana");
  }

  /** Two people who call each other at once: both checks pass before either row is written. */
  lemma CrossedCallsBreakExclusion()
    ensures var run := [Check(PAIR, "ana", "chat", VIDEO), Check(PAIR, "bo", "chat", VIDEO), Write(0, "1", 0), Write(1, "2", 0)];
      !Exclusive(Exec(NO_CALLS, run).state.calls)
  {
    var run := [Check(PAIR, "ana", "chat", VIDEO), Check(PAIR, "bo", "chat", VIDEO), Write(0, "1", 0), Write(1, "2", 0)];
    var first, second := Ticket("chat", "ana", "bo", VIDEO), Ticket("chat", "bo", "ana", VIDEO);
    PairChecks();
    hide CreateCheck;
    hide FirstOther;
    var d1 := Desk(EMPTY, [Some(first)]);
    var d2 := Desk(EMPTY, [Some(first), Some(second)]);
    assert Next(NO_CALLS, run[0]) == d1;
    assert Next(d1, run[1]) == d2;
    assert !RoomUsed(EMPTY.calls, "call-" + "1");
    var d3 := Desk(Rung(EMPTY, "chat", "ana", "bo", VIDEO, "call-" + "1", 0), [None, Some(second)]);
    assert Next(d2, run[2]) == d3;
    assert ("call-" + "1")[5] != ("call-" + "2")[5];
    assert !RoomUsed(d3.state.calls, "call-" + "2");
    var d4 := Next(d3, run[3]);
    assert d4.state == Rung(d3.state, "chat", "bo", "ana", VIDEO, "call-" + "2", 0);
    assert d3.state.calls[0].Live() && d3.state.calls[0].Involves("ana");
    RungKeepsExclusiveExactly(d3.state, "chat", "bo", "ana", VIDEO, "call-" + "2", 0);
    hide Next;
    FourEvents(NO_CALLS, run);
  }

  lemma FourEvents(d: Desk, run: seq<Event>)
    requires |run| == 4
    ensures Exec(d, run) == Next(Next(Next(Next(d, run[0]), run[1]), run[2]), run[3])
  {
    hide Next;
    assert run[..3][..2] == run[..2] && run[..2][..1] == run[..1] && run[..1][..0] == [];
    assert Exec(d, run[..1]) == Next(d, run[0]);
    assert Exec(d, run[..2]) == Next(Exec(d, run[..1]), run[1]);
    assert Exec(d, run[..3]) == Next(Exec(d, run[..2]), run[2]);
  }

  // ---------------------------------------------------------------- the service

  class CallsService {
    var calls: seq<Call>
    var timers: set<CallId>
    var chat: seq<ChatEvent>

    function View(): State
      reads this
    {
      State(calls, timers, chat)
    }

    constructor (s: State)
      ensures View() == s
    {
      calls, timers, chat := s.calls, s.timers, s.chat;
    }

    /** `findFirst` over the live calls of a user. */
    method IsBusy(user: Id) returns (busy: bool)
      ensures busy == Busy(calls, user)
    {
      var i := 0;
      while i < |calls|
        invariant 0 <= i <= |calls|
        invariant !Busy(calls[..i], user)
      {
        if calls[i].Live() && calls[i].Involves(user) { return true; }
        i := i + 1;
      }
      assert calls[..i] == calls;
      return false;
    }

    /** `findFirst` over the answered calls of a user. */
    method IsInAnsweredCall(user: Id) returns (found: bool)
      ensures found == InAnsweredCall(calls, user)
    {
      var i := 0;
      while i < |calls|
        invariant 0 <= i <= |calls|
        invariant !InAnsweredCall(calls[..i], user)
      {
        if calls[i].status in {ACCEPTED, ACTIVE} && calls[i].Involves(user) { return true; }
        i := i + 1;
      }
      assert calls[..i] == calls;
      return false;
    }

    method ClearRingTimer(id: CallId)
      modifies this`timers
      ensures timers == old(timers) - {id}
    {
      timers := timers - {id};
    }

    method PostCallEvent(id: CallId, call: Call, told: Status)
      modifies this`chat
      ensures chat == old(chat) + [Telling(id, call, told)]
    {
      chat := chat + [ChatEvent(id, call.conversation, call.initiator, call.callee, call.callType, told)];
    }

    method EndCallRecord(id: CallId, reason: string, endedBy: string, now: int)
      requires id < |calls|
      modifies this`calls
      ensures calls == old(calls)[id :=
        Closed(old(calls)[id], if reason == "rejected" then REJECTED else ENDED, reason, endedBy, now)]
    {
      var call := calls[id];
      var durationSec := None;
      if call.answeredAt.Some? {
        durationSec := Some(Duration(call.answeredAt.value, now));
      }
      var status := if reason == "rejected" then REJECTED else ENDED;
      calls := calls[id := call.(status := status, endedAt := Some(now), endReason := Some(reason + ":" + endedBy),
                                 durationSec := durationSec)];
    }

    method CreateCall(w: World, user: Id, conversation: Id, callType: CallType, uuid: string, now: int) returns (r: Outcome)
      modifies this
      ensures (View(), r) == Step(old(View()), Create(w, user, conversation, callType, uuid, now))
      ensures old(Inv(View())) ==> Inv(View())
      ensures r != Done ==> View() == old(View())
      ensures r == Done ==> var id := |old(calls)|;
        && |calls| == id + 1 && calls[id].status == RINGING && id in timers
        && calls[id].initiator == user != calls[id].callee && calls[id].callee in People(w, conversation)
        && !Busy(old(calls), user) && !Busy(old(calls), calls[id].callee)
        && (user, calls[id].callee) !in w.blocks && (calls[id].callee, user) !in w.blocks
    {
      KeptInv(View(), Create(w, user, conversation, callType, uuid, now));
      hide Inv;
      if !w.videoReady { return Unavailable; }
      if user !in People(w, conversation) { return Forbidden; }
      var busy := IsBusy(user);
      if busy { return BadRequest; }
      var other := FirstOther(People(w, conversation), user);
      if other.None? { return BadRequest; }
      if (user, other.value) in w.blocks || (other.value, user) in w.blocks { return Forbidden; }
      busy := IsBusy(other.value);
      if busy { return BadRequest; }
      var room := ROOM_PREFIX + uuid;
      if RoomUsed(calls, room) { return RoomTaken; }
      var id := |calls|;
      calls := calls + [Call(conversation, user, other.value, callType, RINGING, room, now, None, None, None, None)];
      timers := timers + {id};
      return Done;
    }

    method AcceptCall(w: World, user: Id, id: CallId, now: int) returns (r: Outcome)
      modifies this
      ensures (View(), r) == Step(old(View()), Accept(w, user, id, now))
      ensures old(Inv(View())) ==> Inv(View())
      ensures r != Done ==> View() == old(View())
      ensures r == Done ==> id < |calls| && calls[id].status == ACTIVE && calls[id].answeredAt == Some(now) && id !in timers
    {
      KeptInv(View(), Accept(w, user, id, now));
      hide Inv;
      if !w.videoReady { return Unavailable; }
      if id >= |calls| { return NotFound; }
      if calls[id].callee != user { return Forbidden; }
      if calls[id].status != RINGING { return BadRequest; }
      var inCall := IsInAnsweredCall(user);
      if inCall { return BadRequest; }
      calls := calls[id := calls[id].(status := ACTIVE, answeredAt := Some(now))];
      ClearRingTimer(id);
      return Done;
    }

    method RejectCall(user: Id, id: CallId, now: int) returns (r: Outcome)
      modifies this
      ensures (View(), r) == Step(old(View()), Reject(user, id, now))
      ensures old(Inv(View())) ==> Inv(View())
      ensures r != Done ==> View() == old(View())
      ensures r == Done ==> id < |calls| && calls[id].status == REJECTED && id !in timers && |chat| == |old(chat)| + 1
    {
      KeptInv(View(), Reject(user, id, now));
      hide Inv;
      if id >= |calls| { return NotFound; }
      var call := calls[id];
      if call.callee != user { return Forbidden; }
      if call.status != RINGING { return BadRequest; }
      EndCallRecord(id, "rejected", user, now);
      ClearRingTimer(id);
      PostCallEvent(id, call, REJECTED);
      return Done;
    }

    method CancelCall(user: Id, id: CallId, now: int) returns (r: Outcome)
      modifies this
      ensures (View(), r) == Step(old(View()), Cancel(user, id, now))
      ensures old(Inv(View())) ==> Inv(View())
      ensures r != Done ==> View() == old(View())
      ensures r == Done ==> id < |calls| && calls[id].status == ENDED && id !in timers && chat == old(chat)
    {
      KeptInv(View(), Cancel(user, id, now));
      hide Inv;
      if id >= |calls| { return NotFound; }
      if calls[id].initiator != user { return Forbidden; }
      if calls[id].status != RINGING { return BadRequest; }
      EndCallRecord(id, "cancelled", user, now);
      ClearRingTimer(id);
      return Done;
    }

    method EndCall(user: Id, id: CallId, now: int) returns (r: Outcome)
      modifies this
      ensures (View(), r) == Step(old(View()), End(user, id, now))
      ensures old(Inv(View())) ==> Inv(View())
      ensures r != Done ==> View() == old(View())
      ensures r == Done ==> id < |calls| && !calls[id].Live() && (!old(calls)[id].Live() ==> View() == old(View()))
    {
      KeptInv(View(), End(user, id, now));
      hide Inv;
      if id >= |calls| { return NotFound; }
      var call := calls[id];
      if call.initiator != user && call.callee != user { return Forbidden; }
      if !call.Live() { return Done; }
      EndCallRecord(id, "ended", user, now);
      ClearRingTimer(id);
      if call.status == ACTIVE {
        PostCallEvent(id, call, ENDED);
      }
      return Done;
    }

    method FinalizeAbandonedCall(id: CallId, tell: bool, now: int)
      requires id < |calls|
      modifies this
      ensures View() == if !old(calls)[id].Live() then old(View())
        else Rewrite(old(View()), id, Closed(old(calls)[id], ENDED, "ended", "livekit-webhook", now), tell)
    {
      var call := calls[id];
      if !call.Live() { return; }
      EndCallRecord(id, "ended", "livekit-webhook", now);
      ClearRingTimer(id);
      if tell {
        PostCallEvent(id, call, ENDED);
      }
    }

    method HandleLivekitWebhook(event: string, room: string, now: int)
      modifies this
      ensures View() == Step(old(View()), Webhook(event, room, now)).0
      ensures old(Inv(View())) ==> Inv(View())
      ensures event == "room_finished" && ROOM_PREFIX <= room ==>
        var id := FindRoom(old(calls), room); id < |calls| ==> !calls[id].Live()
    {
      KeptInv(View(), Webhook(event, room, now));
      hide Inv;
      if !(ROOM_PREFIX <= room) { return; }
      var id := FindRoom(calls, room);
      if id >= |calls| { return; }
      if event == "room_finished" {
        FinalizeAbandonedCall(id, calls[id].status == ACTIVE, now);
        return;
      }
      if event == "participant_left" && calls[id].status == ACTIVE {
        FinalizeAbandonedCall(id, true, now);
      }
    }

    method MarkMissed(id: CallId, now: int)
      modifies this
      ensures View() == MissedStep(old(View()), id, now)
    {
      if id >= |calls| || calls[id].status != RINGING { return; }
      var call := calls[id];
      calls := calls[id := call.(status := MISSED, endedAt := Some(now), endReason := Some("timeout"))];
      PostCallEvent(id, call, MISSED);
      ClearRingTimer(id);
    }

    /** The queue runs the timeout job, then drops it. */
    method RingTimer(id: CallId, now: int)
      modifies this
      ensures View() == Step(old(View()), RingTimeout(id, now)).0
      ensures old(Inv(View())) ==> Inv(View())
      ensures id !in timers && (id < |calls| ==> calls[id].status != RINGING)
    {
      KeptInv(View(), RingTimeout(id, now));
      hide Inv;
      MarkMissed(id, now);
      timers := timers - {id};
    }
  }
}
