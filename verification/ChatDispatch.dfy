/**
 The chat dispatcher: one call from a room becomes an offer to a bounded queue. Rooms and
 dispatcher together: what reaches the message store and presence-service is what the
 rooms sent, in order, less what a full queue dropped.
 */
module ChatDispatch {
  import opened Decimal
  import opened Sorting
  import opened RoomModel
  import RoomProofs
  import WorkQueue

  type Queue<T> = WorkQueue.Queue<T>
  type Offers<T> = seq<WorkQueue.Offered<T>>

  const PRESENCE_QUEUE_SIZE: nat := 256
  const ARCHIVE_QUEUE_SIZE: nat := 1024
  const NOTIFY_QUEUE_SIZE: nat := 1024
  const NOTIFY_WORKERS: nat := 4

  datatype ArchiveEvent = ArchiveEvent(eventID: string, room: string, user: Int64, content: string, createdAt: int)

  /** An item together with the room object it came from. */
  datatype From<T> = From(source: nat, item: T)

  datatype Dispatcher = Dispatcher(
    presence: Queue<From<Notice>>,
    archive: Queue<From<ArchiveEvent>>,
    notify: Queue<From<ArchiveEvent>>,
    hasNotifier: bool)

  function NewDispatcher(hasNotifier: bool): Dispatcher {
    Dispatcher(WorkQueue.NewQueue(PRESENCE_QUEUE_SIZE, 1), WorkQueue.NewQueue(ARCHIVE_QUEUE_SIZE, 1),
               WorkQueue.NewQueue(NOTIFY_QUEUE_SIZE, NOTIFY_WORKERS), hasNotifier)
  }

  function EventOf(frame: Frame, eventID: string): ArchiveEvent {
    ArchiveEvent(eventID, frame.room, frame.user, frame.content, frame.at)
  }

  function SendArchive(d: Dispatcher, source: nat, frame: Frame, eventID: string): Dispatcher {
    var event := From(source, EventOf(frame, eventID));
    var d1 := d.(archive := WorkQueue.Send(d.archive, event));
    if d.hasNotifier then d1.(notify := WorkQueue.Send(d1.notify, event)) else d1
  }

  /** The chat frame an archive event was made from. */
  function FrameOf(e: ArchiveEvent): Frame {
    Frame(Chat, e.room, e.user, e.content, e.createdAt)
  }

  function FramesOf(es: seq<ArchiveEvent>): seq<Frame> {
    seq(|es|, i requires 0 <= i < |es| => FrameOf(es[i]))
  }

  // ----- rooms and dispatcher together

  /** One non-blocking send of a room's turn. */
  datatype Call = ToPresence(notice: Notice) | ToArchive(event: ArchiveEvent) | ToNotify(event: ArchiveEvent)

  function OfferCall(d: Dispatcher, source: nat, call: Call): Dispatcher {
    match call
    case ToPresence(n) => d.(presence := WorkQueue.Send(d.presence, From(source, n)))
    case ToArchive(e) => d.(archive := WorkQueue.Send(d.archive, From(source, e)))
    case ToNotify(e) => d.(notify := WorkQueue.Send(d.notify, From(source, e)))
  }

  function NoticeCalls(notices: seq<Notice>): seq<Call> {
    if notices == [] then [] else [ToPresence(notices[0])] + NoticeCalls(notices[1..])
  }

  function ArchiveCalls(frame: Frame, eventID: string, hasNotifier: bool): seq<Call> {
    var event := EventOf(frame, eventID);
    [ToArchive(event)] + if hasNotifier then [ToNotify(event)] else []
  }

  /** The sends of a room's turn, in order: its notices, then its archive call. */
  function Calls(before: Room, after: Room, eventID: string, hasNotifier: bool): seq<Call> {
    (if |before.notices| <= |after.notices| then NoticeCalls(after.notices[|before.notices|..]) else [])
    + if |before.archived| < |after.archived|
      then ArchiveCalls(after.archived[|after.archived| - 1], eventID, hasNotifier) else []
  }

  /** outbox: what is left of the sends of each room's current turn. */
  datatype System = System(rooms: map<nat, Room>, outbox: map<nat, seq<Call>>, dispatcher: Dispatcher)

  function Outbox(s: System, id: nat): seq<Call> {
    if id in s.outbox then s.outbox[id] else []
  }

  datatype Event =
    | OpenRoom(id: nat, name: string)
    | RoomEvent(id: nat, event: RoomModel.Event, eventID: string)
    | SendNext(id: nat)
    | PresenceWorker(pstep: WorkQueue.Step<From<Notice>>)
    | ArchiveWorker(astep: WorkQueue.Step<From<ArchiveEvent>>)
    | NotifyWorker(nstep: WorkQueue.Step<From<ArchiveEvent>>)

  /** A room begins its next turn only when all sends of the last one are made; pumps never wait. */
  ghost predicate Enabled(s: System, e: Event) {
    match e
    case OpenRoom(id, _) => id !in s.rooms && id !in s.outbox
    case RoomEvent(id, ev, _) =>
      id in s.rooms && RoomModel.Enabled(s.rooms[id], ev) && (ev.Take? || Outbox(s, id) == [])
    case SendNext(id) => Outbox(s, id) != []
    case PresenceWorker(st) => !st.Offer? && WorkQueue.Enabled(s.dispatcher.presence, st)
    case ArchiveWorker(st) => !st.Offer? && WorkQueue.Enabled(s.dispatcher.archive, st)
    case NotifyWorker(st) => !st.Offer? && WorkQueue.Enabled(s.dispatcher.notify, st)
  }

  ghost function Apply(s: System, e: Event): System
    requires Enabled(s, e)
  {
    match e
    case OpenRoom(id, name) => s.(rooms := s.rooms[id := NewRoom(name)])
    case RoomEvent(id, ev, eventID) =>
      var after := Step(s.rooms[id], ev);
      s.(rooms := s.rooms[id := after],
         outbox := s.outbox[id := Outbox(s, id) + Calls(s.rooms[id], after, eventID, s.dispatcher.hasNotifier)])
    case SendNext(id) =>
      s.(outbox := s.outbox[id := Outbox(s, id)[1..]], dispatcher := OfferCall(s.dispatcher, id, Outbox(s, id)[0]))
    case PresenceWorker(st) =>
      s.(dispatcher := s.dispatcher.(presence := WorkQueue.Apply(s.dispatcher.presence, st)))
    case ArchiveWorker(st) =>
      s.(dispatcher := s.dispatcher.(archive := WorkQueue.Apply(s.dispatcher.archive, st)))
    case NotifyWorker(st) =>
      s.(dispatcher := s.dispatcher.(notify := WorkQueue.Apply(s.dispatcher.notify, st)))
  }

  ghost function Run(hasNotifier: bool, es: seq<Event>): System {
    if es == [] then System(map[], map[], NewDispatcher(hasNotifier))
    else
      var s := Run(hasNotifier, es[..|es| - 1]);
      if Enabled(s, es[|es| - 1]) then Apply(s, es[|es| - 1]) else s
  }

  // ----- one room's share of a queue

  function Of<T>(items: seq<From<T>>, source: nat): seq<T> {
    if items == [] then []
    else
      var front := Of(items[..|items| - 1], source);
      var last := items[|items| - 1];
      if last.source == source then front + [last.item] else front
  }

  function OffersOf<T>(offers: Offers<From<T>>, source: nat): Offers<T> {
    if offers == [] then []
    else
      var front := OffersOf(offers[..|offers| - 1], source);
      var last := offers[|offers| - 1];
      if last.item.source == source then front + [WorkQueue.Offered(last.item.item, last.accepted)] else front
  }

  lemma OffersOfLast<T>(offers: Offers<From<T>>, x: From<T>, accepted: bool, source: nat)
    ensures OffersOf(offers + [WorkQueue.Offered(x, accepted)], source)
         == OffersOf(offers, source) + if x.source == source then [WorkQueue.Offered(x.item, accepted)] else []
  {
    assert (offers + [WorkQueue.Offered(x, accepted)])[..|offers|] == offers;
  }

  lemma {:induction false} OfConcat<T>(a: seq<From<T>>, b: seq<From<T>>, source: nat)
    ensures Of(a + b, source) == Of(a, source) + Of(b, source)
  {
    if b == [] {
      assert a + b == a;
    } else {
      OfConcat(a, b[..|b| - 1], source);
      assert (a + b)[..|a + b| - 1] == a + b[..|b| - 1];
    }
  }

  /** A room's accepted (dropped) offers are the room's share of the accepted (dropped) ones. */
  lemma {:induction false} SelectOf<T>(offers: Offers<From<T>>, source: nat, accepted: bool)
    ensures WorkQueue.Select(OffersOf(offers, source), accepted) == Of(WorkQueue.Select(offers, accepted), source)
  {
    if offers != [] {
      var front, last := offers[..|offers| - 1], offers[|offers| - 1];
      SelectOf(front, source, accepted);
      var picked := WorkQueue.Select(front, accepted);
      assert (picked + [last.item])[..|picked|] == picked;
      WorkQueue.SelectLast(OffersOf(front, source), WorkQueue.Offered(last.item.item, last.accepted), accepted);
    }
  }

  /** A send adds its item to the offers of its own room and to nobody else's. */
  lemma SendOffers<T>(q: Queue<From<T>>, x: From<T>, source: nat)
    ensures WorkQueue.Items(OffersOf(WorkQueue.Send(q, x).offers, source))
         == WorkQueue.Items(OffersOf(q.offers, source)) + if x.source == source then [x.item] else []
  {
    var accepted := |q.queued| < q.capacity;
    OffersOfLast(q.offers, x, accepted, source);
    WorkQueue.ItemsLast(OffersOf(q.offers, source), WorkQueue.Offered(x.item, accepted));
  }

  // ----- the invariant

  function Archived(s: System, id: nat): seq<Frame> {
    if id in s.rooms then s.rooms[id].archived else []
  }

  function Notices(s: System, id: nat): seq<Notice> {
    if id in s.rooms then s.rooms[id].notices else []
  }

  function OfferedNotices(d: Dispatcher, id: nat): seq<Notice> {
    WorkQueue.Items(OffersOf(d.presence.offers, id))
  }

  function OfferedFrames(d: Dispatcher, id: nat): seq<Frame> {
    FramesOf(WorkQueue.Items(OffersOf(d.archive.offers, id)))
  }

  /** The frames announced to notification-service. */
  function OfferedEvents(d: Dispatcher, id: nat): seq<Frame> {
    FramesOf(WorkQueue.Items(OffersOf(d.notify.offers, id)))
  }

  // ----- what a room has still to send

  function DueNotices(calls: seq<Call>): seq<Notice> {
    if calls == [] then []
    else (if calls[0].ToPresence? then [calls[0].notice] else []) + DueNotices(calls[1..])
  }

  function DueFrames(calls: seq<Call>): seq<Frame> {
    if calls == [] then []
    else (if calls[0].ToArchive? then [FrameOf(calls[0].event)] else []) + DueFrames(calls[1..])
  }

  function DueEvents(calls: seq<Call>): seq<Frame> {
    if calls == [] then []
    else (if calls[0].ToNotify? then [FrameOf(calls[0].event)] else []) + DueEvents(calls[1..])
  }

  lemma Assoc<T>(a: seq<T>, b: seq<T>, c: seq<T>)
    ensures a + (b + c) == a + b + c
  {
  }

  lemma {:induction false} DueConcat(a: seq<Call>, b: seq<Call>)
    ensures DueNotices(a + b) == DueNotices(a) + DueNotices(b)
    ensures DueFrames(a + b) == DueFrames(a) + DueFrames(b)
    ensures DueEvents(a + b) == DueEvents(a) + DueEvents(b)
  {
    if a == [] {
      assert a + b == b;
    } else {
      DueConcat(a[1..], b);
      assert (a + b)[1..] == a[1..] + b;
      Assoc(if a[0].ToPresence? then [a[0].notice] else [], DueNotices(a[1..]), DueNotices(b));
      Assoc(if a[0].ToArchive? then [FrameOf(a[0].event)] else [], DueFrames(a[1..]), DueFrames(b));
      Assoc(if a[0].ToNotify? then [FrameOf(a[0].event)] else [], DueEvents(a[1..]), DueEvents(b));
    }
  }

  lemma {:induction false} DueOfNotices(notices: seq<Notice>)
    ensures DueNotices(NoticeCalls(notices)) == notices
    ensures DueFrames(NoticeCalls(notices)) == [] && DueEvents(NoticeCalls(notices)) == []
  {
    if notices != [] {
      var rest := NoticeCalls(notices[1..]);
      DueOfNotices(notices[1..]);
      assert ([ToPresence(notices[0])] + rest)[1..] == rest;
    }
  }

  lemma DueOfOne(call: Call)
    ensures DueNotices([call]) == if call.ToPresence? then [call.notice] else []
    ensures DueFrames([call]) == if call.ToArchive? then [FrameOf(call.event)] else []
    ensures DueEvents([call]) == if call.ToNotify? then [FrameOf(call.event)] else []
  {
    assert [call][1..] == [];
  }

  lemma DueOfArchive(frame: Frame, eventID: string, hasNotifier: bool)
    requires frame.kind == Chat
    ensures var calls := ArchiveCalls(frame, eventID, hasNotifier);
      DueNotices(calls) == [] && DueFrames(calls) == [frame] && DueEvents(calls) == if hasNotifier then [frame] else []
  {
    var event := EventOf(frame, eventID);
    DueOfOne(ToArchive(event));
    DueOfOne(ToNotify(event));
    DueConcat([ToArchive(event)], if hasNotifier then [ToNotify(event)] else []);
  }

  // ----- the invariant

  ghost predicate PresenceOk(d: Dispatcher) { WorkQueue.Inv(d.presence) && |d.presence.workers| == 1 }

  ghost predicate ArchiveOk(d: Dispatcher) { WorkQueue.Inv(d.archive) && |d.archive.workers| == 1 }

  ghost predicate NotifyOk(d: Dispatcher) { WorkQueue.Inv(d.notify) }

  ghost predicate QueuesOk(d: Dispatcher) { PresenceOk(d) && ArchiveOk(d) && NotifyOk(d) }

  /** What a room asked for is what its queues were offered and what it has still to send. */
  ghost predicate Sent(d: Dispatcher, calls: seq<Call>, notices: seq<Notice>, archived: seq<Frame>, id: nat) {
    && OfferedNotices(d, id) + DueNotices(calls) == notices
    && OfferedFrames(d, id) + DueFrames(calls) == archived
    && (d.hasNotifier ==> OfferedEvents(d, id) + DueEvents(calls) == archived)
  }

  ghost predicate Inv(s: System) {
    && (forall id :: id in s.rooms ==> RoomProofs.Inv(s.rooms[id]))
    && (forall id :: Sent(s.dispatcher, Outbox(s, id), Notices(s, id), Archived(s, id), id))
  }

  lemma FramesOfLast(es: seq<ArchiveEvent>, e: ArchiveEvent)
    ensures FramesOf(es + [e]) == FramesOf(es) + [FrameOf(e)]
  {
  }

  /** A send adds what it carries to what its own room has offered. */
  lemma OfferCallOffers(d: Dispatcher, source: nat, call: Call)
    ensures var a := OfferCall(d, source, call);
      && OfferedNotices(a, source) == OfferedNotices(d, source) + DueNotices([call])
      && OfferedFrames(a, source) == OfferedFrames(d, source) + DueFrames([call])
      && OfferedEvents(a, source) == OfferedEvents(d, source) + DueEvents([call])
  {
    DueOfOne(call);
    match call
    case ToPresence(n) => SendOffers(d.presence, From(source, n), source);
    case ToArchive(e) =>
      SendOffers(d.archive, From(source, e), source);
      FramesOfLast(WorkQueue.Items(OffersOf(d.archive.offers, source)), e);
    case ToNotify(e) =>
      SendOffers(d.notify, From(source, e), source);
      FramesOfLast(WorkQueue.Items(OffersOf(d.notify.offers, source)), e);
  }

  /** A send moves the first call from what is due to what was offered. */
  lemma OfferCallSent(d: Dispatcher, source: nat, calls: seq<Call>, notices: seq<Notice>, archived: seq<Frame>)
    requires calls != [] && Sent(d, calls, notices, archived, source)
    ensures Sent(OfferCall(d, source, calls[0]), calls[1..], notices, archived, source)
  {
    var first, rest := [calls[0]], calls[1..];
    OfferCallOffers(d, source, calls[0]);
    assert calls == first + rest;
    DueConcat(first, rest);
    Assoc(OfferedNotices(d, source), DueNotices(first), DueNotices(rest));
    Assoc(OfferedFrames(d, source), DueFrames(first), DueFrames(rest));
    Assoc(OfferedEvents(d, source), DueEvents(first), DueEvents(rest));
  }

  lemma OfferCallOthers(d: Dispatcher, source: nat, call: Call, id: nat)
    requires id != source
    ensures OfferedNotices(OfferCall(d, source, call), id) == OfferedNotices(d, id)
    ensures OfferedFrames(OfferCall(d, source, call), id) == OfferedFrames(d, id)
    ensures OfferedEvents(OfferCall(d, source, call), id) == OfferedEvents(d, id)
  {
    match call
    case ToPresence(n) => SendOffers(d.presence, From(source, n), id);
    case ToArchive(e) => SendOffers(d.archive, From(source, e), id);
    case ToNotify(e) => SendOffers(d.notify, From(source, e), id);
  }

  lemma OfferCallKeepsQueues(d: Dispatcher, source: nat, call: Call)
    requires QueuesOk(d)
    ensures QueuesOk(OfferCall(d, source, call))
  {
    match call
    case ToPresence(n) => WorkQueue.SendInv(d.presence, From(source, n));
    case ToArchive(e) => WorkQueue.SendInv(d.archive, From(source, e));
    case ToNotify(e) => WorkQueue.SendInv(d.notify, From(source, e));
  }

  /** Only more notices, and at most one more archive call, for a chat frame. */
  ghost predicate Appends(r: Room, a: Room) {
    && r.notices <= a.notices
    && (a.archived == r.archived
        || (a.archived != [] && a.archived[|a.archived| - 1].kind == Chat
            && a.archived == r.archived + [a.archived[|a.archived| - 1]]))
  }

  lemma StepAppends(r: Room, e: RoomModel.Event)
    requires RoomModel.Enabled(r, e)
    ensures Appends(r, Step(r, e))
  {
  }

  /** A turn's sends are due for exactly what the turn appended. */
  lemma CallsDue(r: Room, a: Room, eventID: string, hasNotifier: bool)
    requires Appends(r, a)
    ensures var calls := Calls(r, a, eventID, hasNotifier);
      && r.notices + DueNotices(calls) == a.notices
      && r.archived + DueFrames(calls) == a.archived
      && (hasNotifier ==> r.archived + DueEvents(calls) == a.archived)
  {
    var added := a.notices[|r.notices|..];
    assert r.notices + added == a.notices;
    DueOfNotices(added);
    if |r.archived| < |a.archived| {
      var frame := a.archived[|a.archived| - 1];
      DueOfArchive(frame, eventID, hasNotifier);
      DueConcat(NoticeCalls(added), ArchiveCalls(frame, eventID, hasNotifier));
    } else {
      DueConcat(NoticeCalls(added), []);
    }
  }

  lemma {:induction false} NoticeCallsOnly(notices: seq<Notice>)
    ensures forall call :: call in NoticeCalls(notices) ==> call.ToPresence?
  {
    if notices != [] {
      NoticeCallsOnly(notices[1..]);
    }
  }

  /** One event id per chat message, the same in the archive and in the message event. */
  lemma CallsCarryId(r: Room, a: Room, eventID: string, hasNotifier: bool)
    ensures forall call :: call in Calls(r, a, eventID, hasNotifier) ==>
              call.ToPresence? || call.event.eventID == eventID
  {
    if |r.notices| <= |a.notices| {
      NoticeCallsOnly(a.notices[|r.notices|..]);
    }
  }

  lemma TurnSent(d: Dispatcher, calls: seq<Call>, r: Room, a: Room, eventID: string, id: nat)
    requires Appends(r, a) && Sent(d, calls, r.notices, r.archived, id)
    ensures Sent(d, calls + Calls(r, a, eventID, d.hasNotifier), a.notices, a.archived, id)
  {
    var more := Calls(r, a, eventID, d.hasNotifier);
    CallsDue(r, a, eventID, d.hasNotifier);
    DueConcat(calls, more);
    Assoc(OfferedNotices(d, id), DueNotices(calls), DueNotices(more));
    Assoc(OfferedFrames(d, id), DueFrames(calls), DueFrames(more));
    Assoc(OfferedEvents(d, id), DueEvents(calls), DueEvents(more));
  }

  lemma WorkerKeepsOffers<T>(q: Queue<T>, st: WorkQueue.Step<T>)
    requires !st.Offer? && WorkQueue.Enabled(q, st)
    ensures WorkQueue.Apply(q, st).offers == q.offers
    ensures |WorkQueue.Apply(q, st).workers| == |q.workers|
  {
  }

  lemma RoomEventSent(s: System, a: System, id: nat, after: Room, eventID: string, x: nat)
    requires id in s.rooms && Appends(s.rooms[id], after)
    requires a == System(s.rooms[id := after],
                         s.outbox[id := Outbox(s, id) + Calls(s.rooms[id], after, eventID, s.dispatcher.hasNotifier)],
                         s.dispatcher)
    requires Sent(s.dispatcher, Outbox(s, x), Notices(s, x), Archived(s, x), x)
    ensures Sent(a.dispatcher, Outbox(a, x), Notices(a, x), Archived(a, x), x)
  {
    if x == id {
      TurnSent(s.dispatcher, Outbox(s, x), s.rooms[x], after, eventID, x);
    }
  }

  lemma RoomEventInv(s: System, e: Event)
    requires Inv(s) && Enabled(s, e) && e.RoomEvent?
    ensures Inv(Apply(s, e))
  {
    var r := s.rooms[e.id];
    RoomProofs.StepInv(r, e.event);
    StepAppends(r, e.event);
    forall x ensures Sent(Apply(s, e).dispatcher, Outbox(Apply(s, e), x), Notices(Apply(s, e), x), Archived(Apply(s, e), x), x) {
      RoomEventSent(s, Apply(s, e), e.id, Step(r, e.event), e.eventID, x);
    }
  }

  lemma SendNextInv(s: System, e: Event)
    requires Inv(s) && Enabled(s, e) && e.SendNext?
    ensures Inv(Apply(s, e))
  {
    var a := Apply(s, e);
    forall x ensures Sent(a.dispatcher, Outbox(a, x), Notices(a, x), Archived(a, x), x) {
      assert Sent(s.dispatcher, Outbox(s, x), Notices(s, x), Archived(s, x), x);
      if x == e.id {
        OfferCallSent(s.dispatcher, x, Outbox(s, x), Notices(s, x), Archived(s, x));
      } else {
        OfferCallOthers(s.dispatcher, e.id, Outbox(s, e.id)[0], x);
      }
    }
  }

  lemma OpenRoomInv(s: System, e: Event)
    requires Inv(s) && Enabled(s, e) && e.OpenRoom?
    ensures Inv(Apply(s, e))
  {
    RoomProofs.RunInv(e.name, []);
    var a := Apply(s, e);
    forall x ensures Sent(a.dispatcher, Outbox(a, x), Notices(a, x), Archived(a, x), x) {
      assert Sent(s.dispatcher, Outbox(s, x), Notices(s, x), Archived(s, x), x);
    }
  }

  predicate IsWorker(e: Event) { e.PresenceWorker? || e.ArchiveWorker? || e.NotifyWorker? }

  lemma WorkerInv(s: System, e: Event)
    requires Inv(s) && Enabled(s, e) && IsWorker(e)
    ensures Inv(Apply(s, e))
  {
    var a := Apply(s, e);
    match e {
      case PresenceWorker(st) => WorkerKeepsOffers(s.dispatcher.presence, st);
      case ArchiveWorker(st) => WorkerKeepsOffers(s.dispatcher.archive, st);
      case NotifyWorker(st) => WorkerKeepsOffers(s.dispatcher.notify, st);
    }
    forall x ensures Sent(a.dispatcher, Outbox(a, x), Notices(a, x), Archived(a, x), x) {
      assert Sent(s.dispatcher, Outbox(s, x), Notices(s, x), Archived(s, x), x);
    }
  }

  lemma ApplyKeepsQueues(s: System, e: Event)
    requires Enabled(s, e) && QueuesOk(s.dispatcher)
    ensures QueuesOk(Apply(s, e).dispatcher)
  {
    match e
    case OpenRoom(_, _) =>
    case RoomEvent(_, _, _) =>
    case SendNext(id) => OfferCallKeepsQueues(s.dispatcher, id, Outbox(s, id)[0]);
    case PresenceWorker(st) =>
      WorkQueue.ApplyInv(s.dispatcher.presence, st);
      WorkerKeepsOffers(s.dispatcher.presence, st);
    case ArchiveWorker(st) =>
      WorkQueue.ApplyInv(s.dispatcher.archive, st);
      WorkerKeepsOffers(s.dispatcher.archive, st);
    case NotifyWorker(st) => WorkQueue.ApplyInv(s.dispatcher.notify, st);
  }

  lemma {:induction false} RunKeepsQueues(hasNotifier: bool, es: seq<Event>)
    ensures QueuesOk(Run(hasNotifier, es).dispatcher)
    ensures Run(hasNotifier, es).dispatcher.hasNotifier == hasNotifier
  {
    if es == [] {
      WorkQueue.NewQueueInv<From<Notice>>(PRESENCE_QUEUE_SIZE, 1);
      WorkQueue.NewQueueInv<From<ArchiveEvent>>(ARCHIVE_QUEUE_SIZE, 1);
      WorkQueue.NewQueueInv<From<ArchiveEvent>>(NOTIFY_QUEUE_SIZE, NOTIFY_WORKERS);
    } else {
      RunKeepsQueues(hasNotifier, es[..|es| - 1]);
      var s := Run(hasNotifier, es[..|es| - 1]);
      if Enabled(s, es[|es| - 1]) {
        ApplyKeepsQueues(s, es[|es| - 1]);
      }
    }
  }

  lemma ApplyInv(s: System, e: Event)
    requires Inv(s) && Enabled(s, e)
    ensures Inv(Apply(s, e))
  {
    if e.OpenRoom? {
      OpenRoomInv(s, e);
    } else if e.RoomEvent? {
      RoomEventInv(s, e);
    } else if e.SendNext? {
      SendNextInv(s, e);
    } else {
      WorkerInv(s, e);
    }
  }

  lemma {:induction false} RunInv(hasNotifier: bool, es: seq<Event>)
    ensures Inv(Run(hasNotifier, es))
  {
    if es != [] {
      RunInv(hasNotifier, es[..|es| - 1]);
      var s := Run(hasNotifier, es[..|es| - 1]);
      if Enabled(s, es[|es| - 1]) {
        ApplyInv(s, es[|es| - 1]);
      }
    }
  }

  /**
   Archive fidelity. A room's offers, and what its current turn has still to send, are exactly its
   chat frames in order (same user, content and timestamp; no join, leave or typing frame). The
   accepted ones, in order, are those already written, then the one in the worker's hand, then
   those still queued; the others were dropped.
   */
  lemma ArchiveFidelity(hasNotifier: bool, es: seq<Event>, id: nat)
    ensures var s := Run(hasNotifier, es);
      && var q := s.dispatcher.archive;
      && var offers := OffersOf(q.offers, id);
      && (id in s.rooms ==>
           FramesOf(WorkQueue.Items(offers)) + DueFrames(Outbox(s, id)) == RoomProofs.ChatsOf(s.rooms[id].frames))
      && WorkQueue.Accepted(offers) == Of(q.handled, id) + Of(WorkQueue.InHand(q.workers), id) + Of(q.queued, id)
      && WorkQueue.Dropped(offers) == Of(WorkQueue.Dropped(q.offers), id)
  {
    RunInv(hasNotifier, es);
    RunKeepsQueues(hasNotifier, es);
    var s := Run(hasNotifier, es);
    ShareOfQueue(s.dispatcher.archive, id);
    assert Sent(s.dispatcher, Outbox(s, id), Notices(s, id), Archived(s, id), id);
  }

  /** Presence events reach the sender in the order the room made them, less those dropped. */
  lemma PresenceFidelity(hasNotifier: bool, es: seq<Event>, id: nat)
    ensures var s := Run(hasNotifier, es);
      && var q := s.dispatcher.presence;
      && var offers := OffersOf(q.offers, id);
      && (id in s.rooms ==> WorkQueue.Items(offers) + DueNotices(Outbox(s, id)) == s.rooms[id].notices)
      && WorkQueue.Accepted(offers) == Of(q.handled, id) + Of(WorkQueue.InHand(q.workers), id) + Of(q.queued, id)
      && WorkQueue.Dropped(offers) == Of(WorkQueue.Dropped(q.offers), id)
  {
    RunInv(hasNotifier, es);
    RunKeepsQueues(hasNotifier, es);
    var s := Run(hasNotifier, es);
    ShareOfQueue(s.dispatcher.presence, id);
    assert Sent(s.dispatcher, Outbox(s, id), Notices(s, id), Archived(s, id), id);
  }

  /**
   Every chat frame is also offered, in order, as a message event when there is a notification
   client; the pool of workers accounts for the accepted ones in any order.
   */
  lemma NotifyFidelity(es: seq<Event>, id: nat)
    ensures var s := Run(true, es);
      && var q := s.dispatcher.notify;
      && (id in s.rooms ==>
           OfferedEvents(s.dispatcher, id) + DueEvents(Outbox(s, id)) == RoomProofs.ChatsOf(s.rooms[id].frames))
      && multiset(WorkQueue.Accepted(q.offers))
         == multiset(q.handled) + multiset(WorkQueue.InHand(q.workers)) + multiset(q.queued)
  {
    RunInv(true, es);
    RunKeepsQueues(true, es);
    var s := Run(true, es);
    var q := s.dispatcher.notify;
    assert Sent(s.dispatcher, Outbox(s, id), Notices(s, id), Archived(s, id), id);
    assert multiset(q.taken + q.queued) == multiset(q.taken) + multiset(q.queued);
  }

  lemma ShareOfQueue<T>(q: Queue<From<T>>, id: nat)
    requires WorkQueue.Inv(q) && |q.workers| == 1
    ensures WorkQueue.Accepted(OffersOf(q.offers, id))
         == Of(q.handled, id) + Of(WorkQueue.InHand(q.workers), id) + Of(q.queued, id)
    ensures WorkQueue.Dropped(OffersOf(q.offers, id)) == Of(WorkQueue.Dropped(q.offers), id)
  {
    SelectOf(q.offers, id, true);
    SelectOf(q.offers, id, false);
    OfConcat(q.taken, q.queued, id);
    OfConcat(q.handled, WorkQueue.InHand(q.workers), id);
  }

  /** An archive call is its two sends in a row. */
  lemma ArchiveIsItsCalls(d: Dispatcher, source: nat, frame: Frame, eventID: string)
    ensures var event := EventOf(frame, eventID);
      var d1 := OfferCall(d, source, ToArchive(event));
      SendArchive(d, source, frame, eventID) == if d.hasNotifier then OfferCall(d1, source, ToNotify(event)) else d1
  {
  }

  lemma SendArchiveOk(d: Dispatcher, source: nat, frame: Frame, eventID: string)
    requires QueuesOk(d) && frame.kind == Chat
    ensures QueuesOk(SendArchive(d, source, frame, eventID))
    ensures OfferedFrames(SendArchive(d, source, frame, eventID), source) == OfferedFrames(d, source) + [frame]
  {
    var event := EventOf(frame, eventID);
    ArchiveIsItsCalls(d, source, frame, eventID);
    OfferCallKeepsQueues(d, source, ToArchive(event));
    OfferCallKeepsQueues(OfferCall(d, source, ToArchive(event)), source, ToNotify(event));
    OfferCallOffers(d, source, ToArchive(event));
    DueOfOne(ToArchive(event));
  }

  /** The dispatcher object as a room sees it. */
  class ChatDispatcher {
    const hasNotifier: bool
    var presenceQ: Queue<From<Notice>>
    var archiveQ: Queue<From<ArchiveEvent>>
    var notifyQ: Queue<From<ArchiveEvent>>

    ghost function State(): Dispatcher
      reads this
    {
      Dispatcher(presenceQ, archiveQ, notifyQ, hasNotifier)
    }

    ghost predicate Valid()
      reads this
    {
      QueuesOk(State())
    }

    constructor (hasNotifier: bool)
      ensures Valid() && State() == NewDispatcher(hasNotifier)
    {
      this.hasNotifier := hasNotifier;
      presenceQ := WorkQueue.NewQueue(PRESENCE_QUEUE_SIZE, 1);
      archiveQ := WorkQueue.NewQueue(ARCHIVE_QUEUE_SIZE, 1);
      notifyQ := WorkQueue.NewQueue(NOTIFY_QUEUE_SIZE, NOTIFY_WORKERS);
      new;
      WorkQueue.NewQueueInv<From<Notice>>(PRESENCE_QUEUE_SIZE, 1);
      WorkQueue.NewQueueInv<From<ArchiveEvent>>(ARCHIVE_QUEUE_SIZE, 1);
      WorkQueue.NewQueueInv<From<ArchiveEvent>>(NOTIFY_QUEUE_SIZE, NOTIFY_WORKERS);
    }

    /** Never blocks: the event is queued, or dropped when the queue is full. */
    method Notify(source: nat, n: Notice)
      requires Valid()
      modifies this`presenceQ
      ensures Valid()
      ensures OfferedNotices(State(), source) == old(OfferedNotices(State(), source)) + [n]
      ensures presenceQ.queued == if |old(presenceQ).queued| < old(presenceQ).capacity
                                  then old(presenceQ).queued + [From(source, n)] else old(presenceQ).queued
    {
      var event := From(source, n);
      ghost var after := WorkQueue.Send(presenceQ, event);
      assert WorkQueue.Inv(after) && |after.workers| == 1 by {
        WorkQueue.SendInv(presenceQ, event);
      }
      SendOffers(presenceQ, event, source);
      presenceQ := WorkQueue.Send(presenceQ, event);
    }

    /** Never blocks: the event is queued, or dropped when the queue is full; an offer either way. */
    method SendToArchive(event: From<ArchiveEvent>)
      modifies this`archiveQ
      ensures archiveQ.queued == if |old(archiveQ).queued| < old(archiveQ).capacity
                                 then old(archiveQ).queued + [event] else old(archiveQ).queued
      ensures State() == OfferCall(old(State()), event.source, ToArchive(event.item))
      ensures WorkQueue.Items(archiveQ.offers) == WorkQueue.Items(old(archiveQ).offers) + [event]
    {
      WorkQueue.ItemsLast(archiveQ.offers, WorkQueue.Offered(event, |archiveQ.queued| < archiveQ.capacity));
      archiveQ := WorkQueue.Send(archiveQ, event);
    }

    method SendToNotify(event: From<ArchiveEvent>)
      modifies this`notifyQ
      ensures notifyQ.queued == if |old(notifyQ).queued| < old(notifyQ).capacity
                                then old(notifyQ).queued + [event] else old(notifyQ).queued
      ensures State() == OfferCall(old(State()), event.source, ToNotify(event.item))
      ensures WorkQueue.Items(notifyQ.offers) == WorkQueue.Items(old(notifyQ).offers) + [event]
    {
      WorkQueue.ItemsLast(notifyQ.offers, WorkQueue.Offered(event, |notifyQ.queued| < notifyQ.capacity));
      notifyQ := WorkQueue.Send(notifyQ, event);
    }

    /** One call, two independent offers; the second only with a notification client. */
    method Archive(source: nat, frame: Frame, eventID: string)
      requires Valid() && frame.kind == Chat
      modifies this`archiveQ, this`notifyQ
      ensures State() == SendArchive(old(State()), source, frame, eventID)
      ensures Valid()
      ensures OfferedFrames(State(), source) == old(OfferedFrames(State(), source)) + [frame]
      ensures var event := From(source, ArchiveEvent(eventID, frame.room, frame.user, frame.content, frame.at));
        && WorkQueue.Items(archiveQ.offers) == WorkQueue.Items(old(archiveQ).offers) + [event]
        && WorkQueue.Items(notifyQ.offers)
           == if hasNotifier then WorkQueue.Items(old(notifyQ).offers) + [event] else WorkQueue.Items(old(notifyQ).offers)
    {
      SendArchiveOk(State(), source, frame, eventID);
      ArchiveIsItsCalls(State(), source, frame, eventID);
      var event := From(source, EventOf(frame, eventID));
      SendToArchive(event);
      if hasNotifier {
        SendToNotify(event);
      }
    }
  }
}
