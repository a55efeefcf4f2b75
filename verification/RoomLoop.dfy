/** The room object: each case of its loop is one step of the room model. */
module RoomLoop {
  import opened Decimal
  import opened Sorting
  import opened RoomModel
  import opened RoomProofs
  import opened RoomTurns

  class ChatRoom {
    const name: string
    var clients: set<ClientId>
    var chans: map<ClientId, Chan>
    /** The calls made on the presence notifier and on the archiver. */
    var notices: seq<Notice>
    var archived: seq<Frame>
    /** Every frame fanned out so far. */
    var frames: seq<Frame>
    ghost var closes: seq<ClientId>

    ghost function State(): Room
      reads this
    {
      Room(name, clients, chans, frames, notices, archived, closes)
    }

    ghost predicate Valid()
      reads this
    {
      Inv(State())
    }

    constructor (name: string)
      ensures Valid() && State() == NewRoom(name)
    {
      this.name := name;
      clients, chans, notices, archived := {}, map[], [], [];
      frames, closes := [], [];
      new;
      RunInv(name, []);
    }

    /**
     Fans a frame out to every client, in whatever order the map yields them. The members that
     remain and everything they were sent depend only on the buffers, not on that order.
     */
    method BroadcastEvent(kind: Kind, user: Int64, content: string, at: int) returns (ghost order: seq<ClientId>)
      requires clients <= chans.Keys
      modifies this
      ensures Enumerates(order, Slow(old(clients), old(chans)))
      ensures State() == FanOut(old(State()), Frame(kind, name, user, content, at), order)
      ensures Reached(old(State()), State(), old(clients), Frame(kind, name, user, content, at)) && clients <= old(clients)
      ensures frames == old(frames) + [Frame(kind, name, user, content, at)] && archived == old(archived)
    {
      var encoded := Frame(kind, name, user, content, at);
      var evicted: seq<ClientId> := [];
      var rest := clients;
      while rest != {}
        modifies this`clients, this`chans, this`closes
        invariant rest <= old(clients)
        invariant chans == Deliver(old(clients) - rest, old(chans), encoded)
        invariant clients == old(clients) - Slow(old(clients) - rest, old(chans))
        invariant Enumerates(evicted, Slow(old(clients) - rest, old(chans)))
        invariant closes == old(closes) + evicted
        decreases rest
      {
        var client :| client in rest;
        ghost var done := old(clients) - rest;
        rest := rest - {client};
        assert old(clients) - rest == done + {client};
        if !Full(chans[client]) {
          chans := chans[client := chans[client].(sent := chans[client].sent + [encoded])];
          assert Slow(done + {client}, old(chans)) == Slow(done, old(chans));
        } else {
          chans := chans[client := chans[client].(closed := true)];
          clients := clients - {client};
          assert Slow(done + {client}, old(chans)) == Slow(done, old(chans)) + {client};
          EnumeratesMore(evicted, Slow(done, old(chans)), client);
          evicted := evicted + [client];
          closes := closes + [client];
        }
      }
      assert old(clients) - rest == old(clients);
      NotifyOffline(evicted);
      assert Offlines(chans, evicted) == Offlines(old(chans), evicted);
      frames := frames + [encoded];
      order := evicted;
    }

    method NotifyOffline(evicted: seq<ClientId>)
      requires forall c :: c in evicted ==> c in chans
      modifies this`notices
      ensures notices == old(notices) + Offlines(chans, evicted)
    {
      for i := 0 to |evicted|
        invariant notices == old(notices) + Offlines(chans, evicted)[..i]
      {
        notices := notices + [Notice(evicted[i], chans[evicted[i]].user, Offline)];
      }
    }

    method OnRegister(c: ClientId, user: Int64, at: int) returns (ghost e: Event)
      requires Valid() && c !in chans
      modifies this
      ensures e.Register? && e.client == c && e.user == user && e.at == at
      ensures Enabled(old(State()), e) && State() == Step(old(State()), e) && Valid()
      ensures frames == old(frames) + [Frame(Join, name, user, "", at)] && archived == old(archived)
      ensures old(notices) + [Notice(c, user, Online)] <= notices
    {
      ghost var before := State();
      clients := clients + {c};
      chans := chans[c := Chan(user, |frames|, [], 0, false)];
      notices := notices + [Notice(c, user, Online)];
      ghost var order := BroadcastEvent(Join, user, "", at);
      e := Register(c, user, at, order);
      StepInv(before, e);
    }

    method OnUnregister(c: ClientId, at: int) returns (ghost e: Event)
      requires Valid()
      modifies this
      ensures e.Unregister? && e.client == c && e.at == at
      ensures Enabled(old(State()), e) && State() == Step(old(State()), e) && Valid()
      ensures c !in old(clients) ==> State() == old(State())
      ensures c in old(clients) ==>
                && frames == old(frames) + [Frame(Leave, name, old(chans)[c].user, "", at)] && archived == old(archived)
                && c !in clients && chans[c].closed
                && notices != [] && notices[|notices| - 1] == Notice(c, old(chans)[c].user, Offline)
    {
      ghost var before := State();
      ghost var order: seq<ClientId> := [];
      if c in clients {
        var user := chans[c].user;
        clients := clients - {c};
        chans := chans[c := chans[c].(closed := true)];
        closes := closes + [c];
        order := BroadcastEvent(Leave, user, "", at);
        notices := notices + [Notice(c, user, Offline)];
      }
      e := Unregister(c, at, order);
      StepInv(before, e);
    }

    method OnMessage(from: ClientId, payload: Payload, at: int) returns (ghost e: Event)
      requires Valid() && from in chans
      modifies this
      ensures e.Message? && e.client == from && e.payload == payload && e.at == at
      ensures Enabled(old(State()), e) && State() == Step(old(State()), e) && Valid()
      ensures payload.ChatPayload? && payload.content != "" ==>
                var frame := Frame(Chat, name, old(chans)[from].user, payload.content, at);
                frames == old(frames) + [frame] && archived == old(archived) + [frame]
      ensures payload.TypingPayload? ==>
                frames == old(frames) + [Frame(Typing, name, old(chans)[from].user, "", at)] && archived == old(archived)
      ensures payload.Malformed? || payload == ChatPayload("") ==> State() == old(State())
    {
      ghost var before := State();
      ghost var order: seq<ClientId> := [];
      var user := chans[from].user;
      match payload {
        case Malformed =>
        case TypingPayload =>
          order := BroadcastEvent(Typing, user, "", at);
        case ChatPayload(content) =>
          if content != "" {
            order := BroadcastEvent(Chat, user, content, at);
            archived := archived + [Frame(Chat, name, user, content, at)];
          }
      }
      e := Message(from, payload, at, order);
      MessageStep(before, from, payload, at, order);
      StepInv(before, e);
    }

    /** Each user with at least one open socket, once. */
    method UserIDs() returns (userIDs: seq<int>)
      requires Valid()
      ensures Distinct(userIDs)
      ensures forall u: Int64 :: u in userIDs <==> Sockets(State(), u) != {}
      ensures forall u :: u in userIDs ==> -0x8000_0000_0000_0000 <= u < 0x8000_0000_0000_0000
    {
      var seen: set<int> := {};
      userIDs := [];
      var rest := clients;
      while rest != {}
        invariant rest <= clients && Distinct(userIDs)
        invariant forall u :: u in userIDs <==> u in seen
        invariant forall u :: u in seen <==> exists c :: c in clients - rest && chans[c].user == u
        decreases rest
      {
        var c :| c in rest;
        rest := rest - {c};
        var user := chans[c].user;
        if user !in seen {
          seen := seen + {user};
          userIDs := userIDs + [user];
        }
        assert c in clients - rest;
      }
      forall u: Int64 ensures u in userIDs <==> Sockets(State(), u) != {} {
        assert clients - rest == clients;
        assert forall c :: c in Sockets(State(), u) <==> c in clients - rest && chans[c].user == u;
      }
    }
  }

  lemma MessageStep(r: Room, from: ClientId, payload: Payload, at: int, order: seq<ClientId>)
    requires from in r.chans
    requires payload.TypingPayload? || (payload.ChatPayload? && payload.content != "") ==>
               Enumerates(order, Slow(r.clients, r.chans))
    ensures var e := Message(from, payload, at, order);
      && Enabled(r, e)
      && Step(r, e) == match payload
         case Malformed => r
         case TypingPayload => FanOut(r, Frame(Typing, r.name, r.chans[from].user, "", at), order)
         case ChatPayload(content) =>
           if content == "" then r
           else
             var frame := Frame(Chat, r.name, r.chans[from].user, content, at);
             FanOut(r, frame, order).(archived := r.archived + [frame])
  {
  }

  lemma EnumeratesMore(order: seq<ClientId>, xs: set<ClientId>, c: ClientId)
    requires Enumerates(order, xs) && c !in xs
    ensures Enumerates(order + [c], xs + {c})
  {
    assert c !in order;
  }
}
