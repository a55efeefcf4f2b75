/**
 Sticky rooms across a fleet: the gateway sends a room to the instance that owns its key,
 every instance keeps its own hub of rooms, and a reaper removes empty rooms while
 connections come and go. The invariants hold for any fixed assignment of keys to instances;
 the gateway's is the lookup on its ring, whatever the instances' health.
 */
module Fleet {
  import opened Sorting
  import Ring

  type RoomId = nat
  type ConnId = nat

  /** The chat handler's room name for a request, defaulted on its own side. */
  function HandlerRoom(param: string): string {
    if param == "" then "general" else param
  }

  /** shut: the done channel is closed; exited: the loop has returned. */
  datatype RoomObject = RoomObject(name: string, host: string, clients: set<ConnId>, shut: bool, exited: bool)

  /** How far the reaper, which holds the hub's lock from Scanning on, has got. */
  datatype Reaper =
    | Idle
    | Scanning
    | FoundEmpty(name: string, id: RoomId)
    | Removed(id: RoomId)

  datatype Hub = Hub(rooms: map<string, RoomId>, reaper: Reaper)

  datatype Connection = Connection(param: string, room: RoomId)

  datatype State = State(
    hubs: map<string, Hub>,
    rooms: map<RoomId, RoomObject>,
    conns: map<ConnId, Connection>,
    healthy: set<string>,
    shutdowns: seq<RoomId>)

  datatype Event =
    | Flip(host: string)
    | Connect(conn: ConnId, param: string, newId: RoomId)
    | Register(conn: ConnId)
    | Leave(conn: ConnId)
    | ReapStart(host: string)
    | ReapObserve(host: string, name: string)
    | ReapDelete(host: string)
    | ReapShutdown(host: string)
    | ReapEnd(host: string)
    | LoopExit(id: RoomId)

  function Initial(hosts: set<string>): State {
    State(map h | h in hosts :: Hub(map[], Idle), map[], map[], hosts, [])
  }

  predicate Enabled(s: State, e: Event, owner: string -> string) {
    match e
    case Flip(_) => true
    case Connect(conn, param, newId) =>
      var host := owner(Ring.RoomKey(param));
      && conn !in s.conns && newId !in s.rooms
      && host in s.healthy && host in s.hubs && s.hubs[host].reaper.Idle?
    case Register(conn) => conn in s.conns && s.conns[conn].room in s.rooms && !s.rooms[s.conns[conn].room].exited
    case Leave(conn) => conn in s.conns && s.conns[conn].room in s.rooms && !s.rooms[s.conns[conn].room].exited
    case ReapStart(host) => host in s.hubs && s.hubs[host].reaper.Idle?
    case ReapObserve(host, name) =>
      && host in s.hubs && s.hubs[host].reaper.Scanning? && name in s.hubs[host].rooms
      && s.hubs[host].rooms[name] in s.rooms && s.rooms[s.hubs[host].rooms[name]].clients == {}
    case ReapDelete(host) => host in s.hubs && s.hubs[host].reaper.FoundEmpty?
    case ReapShutdown(host) => host in s.hubs && s.hubs[host].reaper.Removed? && s.hubs[host].reaper.id in s.rooms
    case ReapEnd(host) => host in s.hubs && s.hubs[host].reaper.Scanning?
    case LoopExit(id) => id in s.rooms && s.rooms[id].shut
  }

  function SetHub(s: State, host: string, hub: Hub): State {
    s.(hubs := s.hubs[host := hub])
  }

  function SetRoom(s: State, id: RoomId, room: RoomObject): State {
    s.(rooms := s.rooms[id := room])
  }

  function Apply(s: State, e: Event, owner: string -> string): State
    requires Enabled(s, e, owner)
  {
    match e
    case Flip(host) => s.(healthy := if host in s.healthy then s.healthy - {host} else s.healthy + {host})
    case Connect(conn, param, newId) =>
      var host := owner(Ring.RoomKey(param));
      var name := HandlerRoom(param);
      var hub := s.hubs[host];
      if name in hub.rooms then s.(conns := s.conns[conn := Connection(param, hub.rooms[name])])
      else
        SetHub(SetRoom(s, newId, RoomObject(name, host, {}, false, false)), host, hub.(rooms := hub.rooms[name := newId]))
          .(conns := s.conns[conn := Connection(param, newId)])
    case Register(conn) =>
      var id := s.conns[conn].room;
      SetRoom(s, id, s.rooms[id].(clients := s.rooms[id].clients + {conn}))
    case Leave(conn) =>
      var id := s.conns[conn].room;
      SetRoom(s, id, s.rooms[id].(clients := s.rooms[id].clients - {conn}))
    case ReapStart(host) => SetHub(s, host, s.hubs[host].(reaper := Scanning))
    case ReapObserve(host, name) => SetHub(s, host, s.hubs[host].(reaper := FoundEmpty(name, s.hubs[host].rooms[name])))
    case ReapDelete(host) =>
      var hub := s.hubs[host];
      SetHub(s, host, Hub(hub.rooms - {hub.reaper.name}, Removed(hub.reaper.id)))
    case ReapShutdown(host) =>
      var id := s.hubs[host].reaper.id;
      SetHub(SetRoom(s, id, s.rooms[id].(shut := true)), host, s.hubs[host].(reaper := Scanning))
        .(shutdowns := s.shutdowns + [id])
    case ReapEnd(host) => SetHub(s, host, s.hubs[host].(reaper := Idle))
    case LoopExit(id) => SetRoom(s, id, s.rooms[id].(exited := true))
  }

  function Run(hosts: set<string>, es: seq<Event>, owner: string -> string): State {
    if es == [] then Initial(hosts)
    else
      var s := Run(hosts, es[..|es| - 1], owner);
      if Enabled(s, es[|es| - 1], owner) then Apply(s, es[|es| - 1], owner) else s
  }

  // ----- the invariant

  /** A mapped room is the hub's own, under its own name, and open. */
  ghost predicate HubOk(s: State, host: string) {
    && host in s.hubs
    && var hub := s.hubs[host];
    && (forall n :: n in hub.rooms ==>
         && hub.rooms[n] in s.rooms
         && s.rooms[hub.rooms[n]].name == n && s.rooms[hub.rooms[n]].host == host && !s.rooms[hub.rooms[n]].shut)
    && (hub.reaper.FoundEmpty? ==> hub.reaper.name in hub.rooms && hub.rooms[hub.reaper.name] == hub.reaper.id)
    && (hub.reaper.Removed? ==>
         && hub.reaper.id in s.rooms
         && s.rooms[hub.reaper.id].host == host && !s.rooms[hub.reaper.id].shut
         && s.rooms[hub.reaper.id].name !in hub.rooms)
  }

  /** A room lives on its owner; while open it is mapped there, or is the one being shut down. */
  ghost predicate RoomOk(s: State, id: RoomId, owner: string -> string) {
    && id in s.rooms
    && var room := s.rooms[id];
    && room.host == owner(room.name) && room.host in s.hubs
    && (room.exited ==> room.shut)
    && (!room.shut ==>
         || (room.name in s.hubs[room.host].rooms && s.hubs[room.host].rooms[room.name] == id)
         || s.hubs[room.host].reaper == Removed(id))
  }

  ghost predicate Inv(s: State, owner: string -> string) {
    && (forall h :: h in s.hubs ==> HubOk(s, h))
    && (forall id :: id in s.rooms ==> RoomOk(s, id, owner))
    && (forall c :: c in s.conns ==> ConnOk(s, c))
    && ShutdownsOk(s)
  }

  /** Two requests name the same room: the same name, or each omits it or says "general". */
  predicate SameRequest(a: string, b: string) {
    a == b || (a in {"", "general"} && b in {"", "general"})
  }

  /** Gateway and chat handler take the room as named, and an omitted one as "general". */
  lemma SameDefault(param: string)
    ensures HandlerRoom(param) == Ring.RoomKey(param)
    ensures Ring.RoomKey("") == "general" && (param != "" ==> Ring.RoomKey(param) == param)
  {
  }

  lemma SameKeyIffSameRequest(a: string, b: string)
    ensures Ring.RoomKey(a) == Ring.RoomKey(b) <==> SameRequest(a, b)
  {
    SameDefault(a);
    SameDefault(b);
  }

  /** A step that only changes clients or exits a loop touches no hub. */
  lemma HubKeptByRooms(s: State, e: Event, owner: string -> string, h: string)
    requires Enabled(s, e, owner) && HubOk(s, h)
    requires e.Flip? || e.Register? || e.Leave? || e.LoopExit?
    ensures HubOk(Apply(s, e, owner), h)
  {
    var t := Apply(s, e, owner);
    forall id | id in s.rooms
      ensures id in t.rooms && t.rooms[id].name == s.rooms[id].name
      ensures t.rooms[id].host == s.rooms[id].host && t.rooms[id].shut == s.rooms[id].shut
    {
    }
  }

  lemma HubKeptByConnect(s: State, e: Event, owner: string -> string, h: string)
    requires Enabled(s, e, owner) && HubOk(s, h) && e.Connect?
    ensures HubOk(Apply(s, e, owner), h)
  {
  }

  lemma HubKept(s: State, e: Event, owner: string -> string, h: string)
    requires Enabled(s, e, owner) && HubOk(s, h)
    requires e.ReapShutdown? ==> HubOk(s, e.host)
    ensures HubOk(Apply(s, e, owner), h)
  {
    if e.Connect? {
      HubKeptByConnect(s, e, owner, h);
    } else if e.Flip? || e.Register? || e.Leave? || e.LoopExit? {
      HubKeptByRooms(s, e, owner, h);
    }
  }

  lemma RoomKept(s: State, e: Event, owner: string -> string, id: RoomId)
    requires Enabled(s, e, owner) && id in Apply(s, e, owner).rooms
    requires id in s.rooms ==> RoomOk(s, id, owner) && HubOk(s, s.rooms[id].host)
    ensures RoomOk(Apply(s, e, owner), id, owner)
  {
    if e.Connect? {
      SameDefault(e.param);
    }
  }

  ghost predicate ConnOk(s: State, c: ConnId) {
    && c in s.conns && s.conns[c].room in s.rooms
    && s.rooms[s.conns[c].room].name == Ring.RoomKey(s.conns[c].param)
  }

  lemma ConnKept(s: State, e: Event, owner: string -> string, c: ConnId)
    requires Enabled(s, e, owner) && c in Apply(s, e, owner).conns
    requires c in s.conns ==> ConnOk(s, c)
    requires e.Connect? ==> HubOk(s, owner(Ring.RoomKey(e.param)))
    ensures ConnOk(Apply(s, e, owner), c)
  {
    if e.Connect? {
      SameDefault(e.param);
    }
  }

  ghost predicate ShutdownsOk(s: State) {
    && Distinct(s.shutdowns)
    && (forall id :: id in s.shutdowns <==> id in s.rooms && s.rooms[id].shut)
  }

  lemma ShutdownsKept(s: State, e: Event, owner: string -> string)
    requires Enabled(s, e, owner) && ShutdownsOk(s)
    requires e.ReapShutdown? ==> HubOk(s, e.host)
    ensures ShutdownsOk(Apply(s, e, owner))
  {
    if e.ReapShutdown? {
      var t := Apply(s, e, owner);
      var id := s.hubs[e.host].reaper.id;
      assert id !in s.shutdowns;
      forall x ensures x in t.shutdowns <==> x in t.rooms && t.rooms[x].shut {
        assert x in t.shutdowns <==> x in s.shutdowns || x == id;
      }
    }
  }

  lemma ApplyInv(s: State, e: Event, owner: string -> string)
    requires Inv(s, owner) && Enabled(s, e, owner)
    ensures Inv(Apply(s, e, owner), owner)
  {
    var t := Apply(s, e, owner);
    forall h | h in t.hubs ensures HubOk(t, h) {
      HubKept(s, e, owner, h);
    }
    forall id | id in t.rooms ensures RoomOk(t, id, owner) {
      assert id in s.rooms ==> RoomOk(s, id, owner);
      RoomKept(s, e, owner, id);
    }
    forall c | c in t.conns ensures ConnOk(t, c) {
      ConnKept(s, e, owner, c);
    }
    ShutdownsKept(s, e, owner);
  }

  /** Over every run of health flips, connects, leaves and reaps. */
  lemma {:induction false} RunInv(hosts: set<string>, es: seq<Event>, owner: string -> string)
    ensures Inv(Run(hosts, es, owner), owner)
  {
    if es != [] {
      RunInv(hosts, es[..|es| - 1], owner);
      var s := Run(hosts, es[..|es| - 1], owner);
      if Enabled(s, es[|es| - 1], owner) {
        ApplyInv(s, es[|es| - 1], owner);
      }
    }
  }

  lemma OpenRoomUnique(s: State, owner: string -> string, a: RoomId, b: RoomId)
    requires Inv(s, owner) && a in s.rooms && b in s.rooms
    requires !s.rooms[a].shut && !s.rooms[b].shut && s.rooms[a].name == s.rooms[b].name
    ensures a == b
  {
    assert RoomOk(s, a, owner) && RoomOk(s, b, owner);
    assert HubOk(s, s.rooms[a].host);
  }

  /** The gateway's choice of instance for a key: the lookup on the one ring it was built with. */
  function Gateway(ring: seq<Ring.Point>, base: Ring.BaseHash): string -> string
    requires ring != []
  {
    key => Ring.LookupOn(ring, base, key)
  }

  /**
   No split rooms: any two connections whose rooms are open and whose requests name the same
   room (an omitted name meaning "general") hold the same room object, on the instance the ring's
   lookup answers for the key.
   */
  lemma NoSplitRooms(ring: seq<Ring.Point>, base: Ring.BaseHash, hosts: set<string>, es: seq<Event>, c: ConnId, d: ConnId)
    requires ring != []
    ensures var s := Run(hosts, es, Gateway(ring, base));
      c in s.conns && d in s.conns ==>
        var r, q := s.conns[c].room, s.conns[d].room;
        && r in s.rooms && q in s.rooms
        && s.rooms[r].host == Ring.LookupOn(ring, base, Ring.RoomKey(s.conns[c].param))
        && s.rooms[r].name == (if s.conns[c].param == "" then "general" else s.conns[c].param)
        && (SameRequest(s.conns[c].param, s.conns[d].param) && !s.rooms[r].shut && !s.rooms[q].shut ==> r == q)
  {
    var owner := Gateway(ring, base);
    var s := Run(hosts, es, owner);
    RunInv(hosts, es, owner);
    if c in s.conns && d in s.conns {
      var r, q := s.conns[c].room, s.conns[d].room;
      assert ConnOk(s, c) && ConnOk(s, d) && RoomOk(s, r, owner);
      SameDefault(s.conns[c].param);
      SameKeyIffSameRequest(s.conns[c].param, s.conns[d].param);
      if SameRequest(s.conns[c].param, s.conns[d].param) && !s.rooms[r].shut && !s.rooms[q].shut {
        OpenRoomUnique(s, owner, r, q);
      }
    }
  }

  /** Whenever a hub's lock is free, the rooms in its map are exactly its open rooms. */
  lemma MappedIffOpen(hosts: set<string>, es: seq<Event>, owner: string -> string, id: RoomId)
    ensures var s := Run(hosts, es, owner);
      id in s.rooms && s.rooms[id].host in s.hubs && s.hubs[s.rooms[id].host].reaper.Idle? ==>
        (!s.rooms[id].shut <==>
          s.rooms[id].name in s.hubs[s.rooms[id].host].rooms && s.hubs[s.rooms[id].host].rooms[s.rooms[id].name] == id)
  {
    var s := Run(hosts, es, owner);
    RunInv(hosts, es, owner);
    if id in s.rooms {
      assert RoomOk(s, id, owner);
      assert HubOk(s, s.rooms[id].host);
    }
  }

  lemma RunMore(hosts: set<string>, es: seq<Event>, e: Event, owner: string -> string)
    requires Enabled(Run(hosts, es, owner), e, owner)
    ensures Run(hosts, es + [e], owner) == Apply(Run(hosts, es, owner), e, owner)
  {
    assert (es + [e])[..|es|] == es;
  }

  /**
   A step that opens a connection does so on the owner of its room, which is healthy, in the room
   mapped there: nobody else ever takes the owner's place.
   */
  lemma ConnectsToHealthyOwner(hosts: set<string>, es: seq<Event>, e: Event, owner: string -> string, c: ConnId)
    requires Enabled(Run(hosts, es, owner), e, owner)
    ensures var s, u := Run(hosts, es, owner), Run(hosts, es + [e], owner);
      c in u.conns && c !in s.conns ==>
        var name := if u.conns[c].param == "" then "general" else u.conns[c].param;
        && owner(name) in s.healthy && owner(name) in u.hubs
        && name in u.hubs[owner(name)].rooms && u.hubs[owner(name)].rooms[name] == u.conns[c].room
        && (name in s.hubs[owner(name)].rooms ==> u.rooms == s.rooms && u.hubs == s.hubs)
  {
    RunMore(hosts, es, e, owner);
    if e.Connect? {
      ConnectStep(Run(hosts, es, owner), e, owner);
    } else {
      assert Apply(Run(hosts, es, owner), e, owner).conns == Run(hosts, es, owner).conns;
    }
  }

  lemma ConnectStep(s: State, e: Event, owner: string -> string)
    requires Enabled(s, e, owner) && e.Connect?
    ensures var u := Apply(s, e, owner);
      var name := if e.param == "" then "general" else e.param;
      && u.conns.Keys == s.conns.Keys + {e.conn} && u.conns[e.conn].param == e.param
      && owner(name) in s.healthy && owner(name) in u.hubs && owner(name) in s.hubs
      && name in u.hubs[owner(name)].rooms && u.hubs[owner(name)].rooms[name] == u.conns[e.conn].room
      && (name in s.hubs[owner(name)].rooms ==> u.rooms == s.rooms && u.hubs == s.hubs)
  {
    SameDefault(e.param);
  }

  /** A room leaves a hub's map only after the reaper has seen it without clients. */
  lemma ReapsOnlyEmpty(hosts: set<string>, es: seq<Event>, e: Event, owner: string -> string, h: string)
    requires Enabled(Run(hosts, es, owner), e, owner) && h in Run(hosts, es, owner).hubs
    ensures var s, u := Run(hosts, es, owner), Run(hosts, es + [e], owner);
      && h in u.hubs
      && (u.hubs[h].reaper.FoundEmpty? && u.hubs[h].reaper != s.hubs[h].reaper ==>
           u.hubs[h].reaper.id in s.rooms && s.rooms[u.hubs[h].reaper.id].clients == {})
      && (forall n :: n in s.hubs[h].rooms && n !in u.hubs[h].rooms ==>
           s.hubs[h].reaper == FoundEmpty(n, s.hubs[h].rooms[n]))
  {
    RunInv(hosts, es, owner);
    RunMore(hosts, es, e, owner);
    assert HubOk(Run(hosts, es, owner), h);
  }

  /** A client is in its room from its registration to its leave, and in no other. */
  lemma ClientsMove(hosts: set<string>, es: seq<Event>, e: Event, owner: string -> string, id: RoomId)
    requires Enabled(Run(hosts, es, owner), e, owner) && id in Run(hosts, es, owner).rooms
    ensures var s, u := Run(hosts, es, owner), Run(hosts, es + [e], owner);
      && id in u.rooms
      && u.rooms[id].clients
         == (if e.Register? && s.conns[e.conn].room == id then s.rooms[id].clients + {e.conn}
             else if e.Leave? && s.conns[e.conn].room == id then s.rooms[id].clients - {e.conn}
             else s.rooms[id].clients)
  {
    RunMore(hosts, es, e, owner);
  }

  /** No room's done channel is closed twice. */
  lemma ShutDownOnce(hosts: set<string>, es: seq<Event>, owner: string -> string)
    ensures Distinct(Run(hosts, es, owner).shutdowns)
  {
    RunInv(hosts, es, owner);
  }

  /** The hub object of one instance. */
  class RoomHub {
    var rooms: map<string, RoomId>
    /** The rooms shut down so far, in order. */
    var shut: seq<RoomId>

    ghost predicate Valid()
      reads this
    {
      && (forall m, n :: m in rooms && n in rooms && rooms[m] == rooms[n] ==> m == n)
      && Distinct(shut)
      && (forall n :: n in rooms ==> rooms[n] !in shut)
    }

    constructor ()
      ensures Valid() && rooms == map[] && shut == []
    {
      rooms, shut := map[], [];
    }

    /** The room under that name; a new object is made only when there is none. */
    method GetOrCreateRoom(name: string, newId: RoomId) returns (id: RoomId)
      requires Valid() && newId !in rooms.Values && newId !in shut
      modifies this`rooms
      ensures Valid() && name in rooms && rooms[name] == id && id !in shut
      ensures id == if name in old(rooms) then old(rooms)[name] else newId
      ensures forall n :: n != name ==> (n in rooms <==> n in old(rooms)) && (n in rooms ==> rooms[n] == old(rooms)[n])
    {
      if name !in rooms {
        assert forall n :: n in rooms ==> rooms[n] in rooms.Values;
        rooms := rooms[name := newId];
      }
      id := rooms[name];
    }

    /**
     One sweep: exactly the rooms that showed no clients leave the map, and each of them is
     shut down once. counts is what ClientCount answered for each room.
     */
    method ReapEmptyRooms(counts: RoomId -> nat)
      requires Valid()
      modifies this
      ensures Valid()
      ensures forall n :: n in rooms <==> n in old(rooms) && counts(old(rooms)[n]) != 0
      ensures forall n :: n in rooms ==> rooms[n] == old(rooms)[n]
      ensures old(shut) <= shut
      ensures forall n :: n in old(rooms) ==> (old(rooms)[n] in shut <==> counts(old(rooms)[n]) == 0)
      ensures forall id :: id in shut ==> id in old(shut) || exists n :: n in old(rooms) && old(rooms)[n] == id
    {
      var rest := rooms.Keys;
      while rest != {}
        invariant rest <= old(rooms).Keys && Valid()
        invariant forall n :: n in rooms <==> n in old(rooms) && (n in rest || counts(old(rooms)[n]) != 0)
        invariant forall n :: n in rooms ==> rooms[n] == old(rooms)[n]
        invariant old(shut) <= shut
        invariant forall n :: n in old(rooms) ==>
                    (old(rooms)[n] in shut <==> n !in rest && counts(old(rooms)[n]) == 0)
        invariant forall id :: id in shut ==> id in old(shut) || exists n :: n in old(rooms) && old(rooms)[n] == id
        decreases rest
      {
        var name :| name in rest;
        rest := rest - {name};
        var room := rooms[name];
        if counts(room) == 0 {
          rooms := rooms - {name};
          shut := shut + [room];
        }
      }
    }
  }
}
