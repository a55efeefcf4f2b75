/**
 A chat room: the single event loop that registers, unregisters and broadcasts, evicting
 slow consumers on the way. One step is one turn of the loop, or one frame taken from a
 client's buffer by its write pump. (A take during a fan-out can be ordered before or
 after the whole fan-out, because it touches only its own client's buffer.)
 */
module RoomModel {
  import opened Decimal
  import opened Sorting

  type ClientId = nat

  const SEND_BUFFER: nat := 16

  datatype Kind = Chat | Join | Leave | Typing

  datatype Frame = Frame(kind: Kind, room: string, user: Int64, content: string, at: int)

  datatype Status = Online | Offline

  /** A presence notification, tagged with the connection it was made for. */
  datatype Notice = Notice(client: ClientId, user: Int64, status: Status)

  /**
   A connection and its send channel: every frame ever enqueued, how many of them have been
   taken, and where in the room's frame sequence the connection joined.
   */
  datatype Chan = Chan(user: Int64, joined: nat, sent: seq<Frame>, taken: nat, closed: bool)

  datatype Room = Room(
    name: string,
    clients: set<ClientId>,
    chans: map<ClientId, Chan>,
    frames: seq<Frame>,
    notices: seq<Notice>,
    archived: seq<Frame>,
    closes: seq<ClientId>)

  function NewRoom(name: string): Room {
    Room(name, {}, map[], [], [], [], [])
  }

  predicate Full(ch: Chan) {
    |ch.sent| >= ch.taken + SEND_BUFFER
  }

  /** The members a fan-out would find with a full buffer. */
  function Slow(clients: set<ClientId>, chans: map<ClientId, Chan>): set<ClientId> {
    set c | c in clients && c in chans && Full(chans[c])
  }

  function Deliver(clients: set<ClientId>, chans: map<ClientId, Chan>, frame: Frame): map<ClientId, Chan> {
    map c | c in chans ::
      if c !in clients then chans[c]
      else if Full(chans[c]) then chans[c].(closed := true)
      else chans[c].(sent := chans[c].sent + [frame])
  }

  function Offlines(chans: map<ClientId, Chan>, order: seq<ClientId>): seq<Notice>
    requires forall c :: c in order ==> c in chans
  {
    seq(|order|, i requires 0 <= i < |order| => Notice(order[i], chans[order[i]].user, Offline))
  }

  ghost predicate Enumerates(order: seq<ClientId>, xs: set<ClientId>) {
    Distinct(order) && forall c :: c in order <==> c in xs
  }

  /** broadcastEvent; order is the order in which the slow consumers were met. */
  function FanOut(r: Room, frame: Frame, order: seq<ClientId>): Room
    requires forall c :: c in order ==> c in r.chans
  {
    r.(clients := r.clients - Slow(r.clients, r.chans),
       chans := Deliver(r.clients, r.chans, frame),
       frames := r.frames + [frame],
       notices := r.notices + Offlines(r.chans, order),
       closes := r.closes + order)
  }

  datatype Payload = Malformed | TypingPayload | ChatPayload(content: string)

  datatype Event =
    | Register(client: ClientId, user: Int64, at: int, order: seq<ClientId>)
    | Unregister(client: ClientId, at: int, order: seq<ClientId>)
    | Message(client: ClientId, payload: Payload, at: int, order: seq<ClientId>)
    | Take(client: ClientId)

  function Admit(r: Room, c: ClientId, user: Int64): Room {
    r.(clients := r.clients + {c},
       chans := r.chans[c := Chan(user, |r.frames|, [], 0, false)],
       notices := r.notices + [Notice(c, user, Online)])
  }

  function Dismiss(r: Room, c: ClientId): Room
    requires c in r.chans
  {
    r.(clients := r.clients - {c},
       chans := r.chans[c := r.chans[c].(closed := true)],
       closes := r.closes + [c])
  }

  predicate IsMember(r: Room, c: ClientId) {
    c in r.clients && c in r.chans
  }

  /** The state in which the step's fan-out runs, if it has one, and the frame it sends. */
  function Prepared(r: Room, e: Event): Room {
    match e
    case Register(c, user, _, _) => Admit(r, c, user)
    case Unregister(c, _, _) => if IsMember(r, c) then Dismiss(r, c) else r
    case Message(_, _, _, _) => r
    case Take(_) => r
  }

  function Sends(r: Room, e: Event): Option<Frame> {
    match e
    case Register(_, user, at, _) => Some(Frame(Join, r.name, user, "", at))
    case Unregister(c, at, _) =>
      if IsMember(r, c) then Some(Frame(Leave, r.name, r.chans[c].user, "", at)) else None
    case Message(c, payload, at, _) =>
      if c !in r.chans then None
      else (
        match payload
        case Malformed => None
        case TypingPayload => Some(Frame(Typing, r.name, r.chans[c].user, "", at))
        case ChatPayload(content) =>
          if content == "" then None else Some(Frame(Chat, r.name, r.chans[c].user, content, at))
      )
    case Take(_) => None
  }

  /**
   Connections register once, messages come from connections that have registered, and the
   eviction order is some enumeration of the slow consumers.
   */
  ghost predicate Enabled(r: Room, e: Event) {
    && (e.Register? ==> e.client !in r.chans)
    && (e.Message? ==> e.client in r.chans)
    && (e.Take? ==> e.client in r.chans && r.chans[e.client].taken < |r.chans[e.client].sent|)
    && (!e.Take? && Sends(r, e).Some? ==>
         var p := Prepared(r, e); Enumerates(e.order, Slow(p.clients, p.chans)))
  }

  function Step(r: Room, e: Event): Room
    requires Enabled(r, e)
  {
    match e
    case Take(c) => r.(chans := r.chans[c := r.chans[c].(taken := r.chans[c].taken + 1)])
    case Register(c, user, at, order) =>
      FanOut(Admit(r, c, user), Sends(r, e).value, order)
    case Unregister(c, at, order) =>
      if IsMember(r, c) then
        var after := FanOut(Dismiss(r, c), Sends(r, e).value, order);
        after.(notices := after.notices + [Notice(c, r.chans[c].user, Offline)])
      else r
    case Message(c, payload, at, order) =>
      if Sends(r, e).None? then r
      else
        var frame := Sends(r, e).value;
        var after := FanOut(r, frame, order);
        if frame.kind == Chat then after.(archived := after.archived + [frame]) else after
  }

  /** A run of the room; an event that cannot happen in the current state does not happen. */
  ghost function Run(name: string, es: seq<Event>): Room {
    if es == [] then NewRoom(name)
    else
      var r := Run(name, es[..|es| - 1]);
      if Enabled(r, es[|es| - 1]) then Step(r, es[|es| - 1]) else r
  }
}
