/**
 What a room does with each event, said outright: which frame goes out, who gets it and who is
 dropped, what is archived. These are statements about runs, independent of how a step is written.
 */
module RoomTurns {
  import opened Decimal
  import opened RoomModel
  import RoomProofs

  /**
   The frame went out to the members: who had a free slot got it and stays, who had 16 frames waiting
   was closed and dropped; everybody else's channel is as it was.
   */
  ghost predicate Reached(r: Room, u: Room, members: set<ClientId>, frame: Frame) {
    && (forall c :: c in members ==>
         && c in r.chans && c in u.chans
         && (c in u.clients <==> |r.chans[c].sent| - r.chans[c].taken < 16)
         && u.chans[c] == if |r.chans[c].sent| - r.chans[c].taken < 16 then r.chans[c].(sent := r.chans[c].sent + [frame])
                          else r.chans[c].(closed := true))
    && (forall c :: c in r.chans && c !in r.clients ==> c in u.chans && u.chans[c] == r.chans[c])
  }

  /** Every notice added is the offline of a member that was dropped. */
  ghost predicate OnlyDropped(r: Room, u: Room, added: seq<Notice>) {
    forall n :: n in added ==>
      n.client in r.clients && n.client in r.chans && n.client !in u.clients && n == Notice(n.client, r.chans[n.client].user, Offline)
  }

  lemma RunStep(name: string, es: seq<Event>, e: Event)
    requires Enabled(Run(name, es), e)
    ensures Run(name, es + [e]) == Step(Run(name, es), e)
  {
    assert (es + [e])[..|es|] == es;
  }

  lemma FanOutReaches(r: Room, frame: Frame, order: seq<ClientId>)
    requires RoomProofs.Structure(r) && Enumerates(order, Slow(r.clients, r.chans))
    ensures var u := FanOut(r, frame, order);
      && Reached(r, u, r.clients, frame) && u.clients <= r.clients
      && r.notices <= u.notices && OnlyDropped(r, u, u.notices[|r.notices|..])
  {
    var u := FanOut(r, frame, order);
    var more := Offlines(r.chans, order);
    assert u.notices[|r.notices|..] == more;
    forall n | n in more
      ensures n.client in r.clients && n.client !in u.clients && n == Notice(n.client, r.chans[n.client].user, Offline)
    {
      var i :| 0 <= i < |more| && more[i] == n;
      assert order[i] in order;
    }
  }

  /** A client joins: online first, then its join frame goes out to the members and to itself. */
  lemma RegisterDoes(name: string, es: seq<Event>, c: ClientId, user: Int64, at: int, order: seq<ClientId>)
    requires Enabled(Run(name, es), Register(c, user, at, order))
    ensures var r, u := Run(name, es), Run(name, es + [Register(c, user, at, order)]);
      var frame := Frame(Join, name, user, "", at);
      && u.frames == r.frames + [frame] && u.archived == r.archived
      && Reached(r, u, r.clients, frame) && u.clients <= r.clients + {c}
      && c in u.clients && c in u.chans && u.chans[c] == Chan(user, |r.frames|, [frame], 0, false)
      && r.notices + [Notice(c, user, Online)] <= u.notices && OnlyDropped(r, u, u.notices[|r.notices| + 1..])
  {
    var r, e := Run(name, es), Register(c, user, at, order);
    RoomProofs.RunInv(name, es);
    RunStep(name, es, e);
    RoomProofs.PreparedStructure(r, e);
    var p := Admit(r, c, user);
    FanOutReaches(p, Frame(Join, name, user, "", at), order);
  }

  /** A member leaves: its channel is closed, the leave frame goes out to the others, then offline. */
  lemma UnregisterDoes(name: string, es: seq<Event>, c: ClientId, at: int, order: seq<ClientId>)
    requires Enabled(Run(name, es), Unregister(c, at, order))
    ensures var r, u := Run(name, es), Run(name, es + [Unregister(c, at, order)]);
      if c !in r.clients then u == r
      else
        c in r.chans
        && var frame := Frame(Leave, name, r.chans[c].user, "", at);
        && u.frames == r.frames + [frame] && u.archived == r.archived
        && Reached(r, u, r.clients - {c}, frame) && u.clients <= r.clients - {c}
        && c in u.chans && u.chans[c] == r.chans[c].(closed := true)
        && |u.notices| > |r.notices| && r.notices <= u.notices
        && u.notices[|u.notices| - 1] == Notice(c, r.chans[c].user, Offline)
        && OnlyDropped(r, u, u.notices[|r.notices|..|u.notices| - 1])
  {
    var r, e := Run(name, es), Unregister(c, at, order);
    RoomProofs.RunInv(name, es);
    RunStep(name, es, e);
    if c in r.clients {
      RoomProofs.PreparedStructure(r, e);
      FanOutReaches(Dismiss(r, c), Frame(Leave, name, r.chans[c].user, "", at), order);
    }
  }

  /**
   A message: non-empty chat goes out, and is archived, with the sender's id, the content as sent and one
   timestamp; typing goes out and is forgotten; anything else is dropped.
   */
  lemma MessageDoes(name: string, es: seq<Event>, c: ClientId, payload: Payload, at: int, order: seq<ClientId>)
    requires Enabled(Run(name, es), Message(c, payload, at, order))
    ensures var r, u := Run(name, es), Run(name, es + [Message(c, payload, at, order)]);
      c in r.chans
      && var user := r.chans[c].user;
      match payload
      case ChatPayload(content) =>
        if content == "" then u == r
        else
          var frame := Frame(Chat, name, user, content, at);
          u.frames == r.frames + [frame] && u.archived == r.archived + [frame] && Broadcast(r, u, frame)
      case TypingPayload =>
        var frame := Frame(Typing, name, user, "", at);
        u.frames == r.frames + [frame] && u.archived == r.archived && Broadcast(r, u, frame)
      case Malformed => u == r
  {
    var r, e := Run(name, es), Message(c, payload, at, order);
    RoomProofs.RunInv(name, es);
    RunStep(name, es, e);
    if Sends(r, e).Some? {
      FanOutReaches(r, Sends(r, e).value, order);
    }
  }

  ghost predicate Broadcast(r: Room, u: Room, frame: Frame) {
    && Reached(r, u, r.clients, frame) && u.clients <= r.clients
    && r.notices <= u.notices && OnlyDropped(r, u, u.notices[|r.notices|..])
  }

  /** A pump frees one slot of its own client's buffer and changes nothing else. */
  lemma TakeDoes(name: string, es: seq<Event>, c: ClientId)
    requires Enabled(Run(name, es), Take(c))
    ensures var r, u := Run(name, es), Run(name, es + [Take(c)]);
      c in r.chans && u == r.(chans := u.chans)
      && u.chans == r.chans[c := r.chans[c].(taken := r.chans[c].taken + 1)]
  {
    RunStep(name, es, Take(c));
  }
}
