/**
 What presence shows of a room. The room reports every socket that comes or goes; presence keeps one
 slot per user and instance, so the last report wins, however many sockets the user has. The heartbeat
 re-asserts the users with an open socket.
 */
module RoomPresence {
  import opened Decimal
  import opened Sorting
  import R = RoomModel
  import RoomProofs
  import opened Presence
  import PresenceTheorems

  type Notice = R.Notice

  /** The room's reports as they reach presence-service, in order and none dropped, at the given times. */
  function Reports(name: string, inst: string, notices: seq<Notice>, at: nat -> int): seq<Event> {
    if notices == [] then []
    else
      var k := |notices| - 1;
      var n := notices[k];
      Reports(name, inst, notices[..k], at)
      + [Event(at(k), if n.status.Online? then Online(name, n.user, inst, at(k)) else Offline(name, n.user, inst))]
  }

  ghost predicate Clocked(at: nat -> int, n: nat) {
    forall i, j :: 0 <= i < j < n ==> at(i) <= at(j)
  }

  /** The last report about the user was that a socket came. */
  function LastJoin(notices: seq<Notice>, user: Int64): Option<nat> {
    if notices == [] then None
    else
      var k := |notices| - 1;
      if notices[k].user != user then LastJoin(notices[..k], user)
      else if notices[k].status.Online? then Some(k) else None
  }

  lemma {:induction false} ReportsValid(name: string, inst: string, notices: seq<Notice>, at: nat -> int)
    requires Clocked(at, |notices|)
    ensures |Reports(name, inst, notices, at)| == |notices|
    ensures forall i :: 0 <= i < |notices| ==> Reports(name, inst, notices, at)[i].clock == at(i)
    ensures ValidHistory(Reports(name, inst, notices, at))
  {
    if notices != [] {
      ReportsValid(name, inst, notices[..|notices| - 1], at);
    }
  }

  lemma {:induction false} ReportsRecord(name: string, inst: string, notices: seq<Notice>, at: nat -> int, s: Slot)
    ensures var m := LastWrites(Reports(name, inst, notices, at));
      && (s in m <==> s.room == name && s.inst == inst && LastJoin(notices, s.user).Some?)
      && (s in m ==> LastJoin(notices, s.user).value < |notices| && m[s] == at(LastJoin(notices, s.user).value))
  {
    if notices != [] {
      var k := |notices| - 1;
      var h := Reports(name, inst, notices[..k], at);
      ReportsRecord(name, inst, notices[..k], at, s);
      assert Reports(name, inst, notices, at)[..|h|] == h;
    }
  }

  /**
   Who presence lists for the room: at any time after the reports, exactly the users whose last report
   was a join at most a TTL ago. Sockets that stayed open while another one closed do not count.
   */
  lemma ListedIffLastJoin(ttl: int, name: string, inst: string, notices: seq<Notice>, at: nat -> int, clock: int, user: Int64)
    requires ttl >= 500 && Clocked(at, |notices|) && (notices != [] ==> at(|notices| - 1) <= clock)
    ensures user in PresenceTheorems.UsersRead(Run(ttl, Reports(name, inst, notices, at)), name, clock, clock)
       <==> LastJoin(notices, user).Some? && clock <= at(LastJoin(notices, user).value) + ttl
  {
    var h := Reports(name, inst, notices, at);
    var m := LastWrites(h);
    ReportsValid(name, inst, notices, at);
    PresenceTheorems.ReadRefinesLastWrites(ttl, h, name, clock, clock);
    ReportsRecord(name, inst, notices, at, Slot(name, user, inst));
    if user in LiveUsers(ttl, m, name, clock) {
      var s :| s in m && s.room == name && clock <= m[s] + ttl && s.user == user;
      ReportsRecord(name, inst, notices, at, s);
    }
  }

  // ----- nobody is listed without a socket

  /** Every notice is about the user of its connection. */
  ghost predicate Owned(r: R.Room) {
    forall n :: n in r.notices ==> n.client in r.chans && n.user == r.chans[n.client].user
  }

  lemma PreparedOwned(r: R.Room, e: R.Event)
    requires Owned(r) && R.Enabled(r, e)
    ensures Owned(R.Prepared(r, e))
  {
  }

  lemma FanOutOwned(r: R.Room, frame: R.Frame, order: seq<R.ClientId>)
    requires Owned(r) && forall c :: c in order ==> c in r.chans
    ensures Owned(R.FanOut(r, frame, order))
  {
    var u := R.FanOut(r, frame, order);
    forall n | n in u.notices ensures n.client in u.chans && n.user == u.chans[n.client].user {
      if n !in r.notices {
        var more := R.Offlines(r.chans, order);
        assert n in more;
        var i :| 0 <= i < |order| && more[i] == n;
        assert order[i] in order;
      }
    }
  }

  lemma StepOwned(r: R.Room, e: R.Event)
    requires Owned(r) && R.Enabled(r, e)
    ensures Owned(R.Step(r, e))
  {
    if R.Sends(r, e).Some? {
      var p, frame := R.Prepared(r, e), R.Sends(r, e).value;
      RoomProofs.StepIsFanOut(r, e);
      PreparedOwned(r, e);
      FanOutOwned(p, frame, e.order);
      var f := R.FanOut(p, frame, e.order);
      var more := if e.Unregister? then [R.Notice(e.client, r.chans[e.client].user, R.Offline)] else [];
      forall n | n in f.notices + more ensures n.client in f.chans && n.user == f.chans[n.client].user {
        assert n in f.notices || n in more;
      }
    } else {
      RoomProofs.StepWithoutFrame(r, e);
    }
  }

  lemma {:induction false} RunOwned(name: string, es: seq<R.Event>)
    ensures Owned(R.Run(name, es))
  {
    if es != [] {
      RunOwned(name, es[..|es| - 1]);
      if R.Enabled(R.Run(name, es[..|es| - 1]), es[|es| - 1]) {
        StepOwned(R.Run(name, es[..|es| - 1]), es[|es| - 1]);
      }
    }
  }

  lemma {:induction false} LastStatus(notices: seq<Notice>, c: R.ClientId, i: nat)
    requires i < |notices| && notices[i].client == c && forall k :: i < k < |notices| ==> notices[k].client != c
    ensures var statuses := RoomProofs.StatusesOf(notices, c);
      statuses != [] && statuses[|statuses| - 1] == notices[i].status
  {
    if i < |notices| - 1 {
      LastStatus(notices[..|notices| - 1], c, i);
    }
  }

  lemma {:induction false} LastJoinIs(notices: seq<Notice>, user: Int64)
    requires LastJoin(notices, user).Some?
    ensures var i := LastJoin(notices, user).value;
      && i < |notices| && notices[i].user == user && notices[i].status.Online?
      && forall k :: i < k < |notices| ==> notices[k].user != user
  {
    if notices[|notices| - 1].user != user {
      LastJoinIs(notices[..|notices| - 1], user);
    }
  }

  /** In every run, a user whose last report was a join has an open socket: that one. */
  lemma NoGhosts(name: string, es: seq<R.Event>, user: Int64)
    ensures var r := R.Run(name, es); LastJoin(r.notices, user).Some? ==> RoomProofs.Sockets(r, user) != {}
  {
    var r := R.Run(name, es);
    if LastJoin(r.notices, user).Some? {
      RoomProofs.RunInv(name, es);
      RunOwned(name, es);
      LastJoinIs(r.notices, user);
      var i := LastJoin(r.notices, user).value;
      var c := r.notices[i].client;
      assert r.notices[i] in r.notices;
      forall k | i < k < |r.notices| ensures r.notices[k].client != c {
        assert r.notices[k] in r.notices;
      }
      LastStatus(r.notices, c, i);
      assert RoomProofs.StatusesOf(r.notices, c) == RoomProofs.ExpectedStatuses(r, c);
      assert c in RoomProofs.Sockets(r, user);
    }
  }

  // ----- a user with an open socket who is not listed

  lemma FewFrames(r: R.Room, e: R.Event)
    requires RoomProofs.Inv(r) && |r.frames| < R.SEND_BUFFER && R.Sends(r, e).Some? && e.order == []
    requires (e.Register? && e.client !in r.chans) || (e.Unregister? && R.IsMember(r, e.client))
    ensures R.Enabled(r, e)
  {
    var p := R.Prepared(r, e);
    forall c | c in p.chans ensures !R.Full(p.chans[c]) {
      assert c in r.chans ==> RoomProofs.Segment(r.frames, r.chans[c], c in r.clients);
    }
  }

  lemma RunMore(name: string, es: seq<R.Event>, e: R.Event)
    requires R.Enabled(R.Run(name, es), e)
    ensures R.Run(name, es + [e]) == R.Step(R.Run(name, es), e)
  {
    assert (es + [e])[..|es|] == es;
  }

  lemma NobodySlow(r: R.Room, e: R.Event)
    requires RoomProofs.Inv(r) && |r.frames| < R.SEND_BUFFER && R.Sends(r, e).Some? && R.Enabled(r, e)
    ensures R.Slow(R.Prepared(r, e).clients, R.Prepared(r, e).chans) == {}
  {
    var p := R.Prepared(r, e);
    forall c | c in p.chans ensures !R.Full(p.chans[c]) {
      assert c in r.chans ==> RoomProofs.Segment(r.frames, r.chans[c], c in r.clients);
    }
  }

  lemma JoinStep(r: R.Room, c: R.ClientId, user: Int64, t: int)
    requires c !in r.chans && r.clients <= r.chans.Keys && R.Enabled(r, R.Register(c, user, t, []))
    requires var p := R.Admit(r, c, user); R.Slow(p.clients, p.chans) == {}
    ensures var u := R.Step(r, R.Register(c, user, t, []));
      && u.notices == r.notices + [R.Notice(c, user, R.Online)] && |u.frames| == |r.frames| + 1
      && u.chans.Keys == r.chans.Keys + {c}
      && RoomProofs.Sockets(u, user) == RoomProofs.Sockets(r, user) + {c}
  {
  }

  lemma SocketJoins(name: string, es: seq<R.Event>, c: R.ClientId, user: Int64, t: int)
    requires |R.Run(name, es).frames| < R.SEND_BUFFER && c !in R.Run(name, es).chans
    ensures var r, u := R.Run(name, es), R.Run(name, es + [R.Register(c, user, t, [])]);
      && u.notices == r.notices + [R.Notice(c, user, R.Online)] && |u.frames| == |r.frames| + 1
      && u.chans.Keys == r.chans.Keys + {c}
      && RoomProofs.Sockets(u, user) == RoomProofs.Sockets(r, user) + {c}
  {
    var r, e := R.Run(name, es), R.Register(c, user, t, []);
    RoomProofs.RunInv(name, es);
    FewFrames(r, e);
    NobodySlow(r, e);
    RunMore(name, es, e);
    JoinStep(r, c, user, t);
  }

  lemma LeaveStep(r: R.Room, c: R.ClientId, user: Int64, t: int)
    requires c in RoomProofs.Sockets(r, user) && R.Enabled(r, R.Unregister(c, t, []))
    requires var p := R.Dismiss(r, c); R.Slow(p.clients, p.chans) == {}
    ensures var u := R.Step(r, R.Unregister(c, t, []));
      && u.notices == r.notices + [R.Notice(c, user, R.Offline)]
      && RoomProofs.Sockets(u, user) == RoomProofs.Sockets(r, user) - {c}
  {
  }

  lemma SocketLeaves(name: string, es: seq<R.Event>, c: R.ClientId, user: Int64, t: int)
    requires |R.Run(name, es).frames| < R.SEND_BUFFER && c in RoomProofs.Sockets(R.Run(name, es), user)
    ensures var r, u := R.Run(name, es), R.Run(name, es + [R.Unregister(c, t, [])]);
      && u.notices == r.notices + [R.Notice(c, user, R.Offline)]
      && RoomProofs.Sockets(u, user) == RoomProofs.Sockets(r, user) - {c}
  {
    var r, e := R.Run(name, es), R.Unregister(c, t, []);
    RoomProofs.RunInv(name, es);
    FewFrames(r, e);
    NobodySlow(r, e);
    RunMore(name, es, e);
    LeaveStep(r, c, user, t);
  }

  lemma TwoSocketsOneLeaves(name: string, user: Int64, t: int) returns (es: seq<R.Event>)
    ensures RoomProofs.Sockets(R.Run(name, es), user) == {1}
    ensures R.Run(name, es).notices
         == [R.Notice(0, user, R.Online), R.Notice(1, user, R.Online), R.Notice(0, user, R.Offline)]
  {
    es := [];
    SocketJoins(name, es, 0, user, t);
    es := es + [R.Register(0, user, t, [])];
    SocketJoins(name, es, 1, user, t);
    es := es + [R.Register(1, user, t, [])];
    SocketLeaves(name, es, 0, user, t);
    es := es + [R.Unregister(0, t, [])];
  }

  /**
   A user opens two sockets in a room and closes one. The other is still open, but the last report was a
   leave: presence does not list the user, at any time and with any TTL.
   */
  lemma OpenSocketNotListed(ttl: int, name: string, inst: string, user: Int64, t: int, at: nat -> int, clock: int)
    returns (es: seq<R.Event>)
    requires ttl >= 500 && Clocked(at, 3) && at(2) <= clock
    ensures RoomProofs.Sockets(R.Run(name, es), user) != {} && |R.Run(name, es).notices| == 3
    ensures user !in PresenceTheorems.UsersRead(Run(ttl, Reports(name, inst, R.Run(name, es).notices, at)), name, clock, clock)
  {
    es := TwoSocketsOneLeaves(name, user, t);
    ListedIffLastJoin(ttl, name, inst, R.Run(name, es).notices, at, clock, user);
  }

  // ----- the heartbeat

  lemma HeartbeatRecord(h: seq<Event>, name: string, inst: string, users: seq<Int64>, t: int, s: Slot)
    ensures var m := LastWrites(h + [Event(t, Refresh(name, inst, users, t))]);
      && (s in m <==> s in LastWrites(h) || (s.room == name && s.inst == inst && s.user in users))
      && (s in m ==> m[s] == if s.room == name && s.inst == inst && s.user in users then t else LastWrites(h)[s])
  {
    assert (h + [Event(t, Refresh(name, inst, users, t))])[..|h|] == h;
  }

  /**
   The heartbeat repairs it: once the users with an open socket have been re-asserted at t, and for a
   TTL from then on, presence lists exactly the users with an open socket in the room.
   */
  lemma HeartbeatExact(ttl: int, name: string, inst: string, es: seq<R.Event>, at: nat -> int,
                       users: seq<Int64>, t: int, clock: int, user: Int64)
    requires ttl >= 500 && t <= clock <= t + ttl
    requires var r := R.Run(name, es);
      && Clocked(at, |r.notices|) && (r.notices != [] ==> at(|r.notices| - 1) <= t)
      && forall u: Int64 :: u in users <==> RoomProofs.Sockets(r, u) != {}
    ensures var r := R.Run(name, es);
      var h := Reports(name, inst, r.notices, at) + [Event(t, Refresh(name, inst, users, t))];
      user in PresenceTheorems.UsersRead(Run(ttl, h), name, clock, clock) <==> RoomProofs.Sockets(r, user) != {}
  {
    var r := R.Run(name, es);
    var g := Reports(name, inst, r.notices, at);
    var h := g + [Event(t, Refresh(name, inst, users, t))];
    var m := LastWrites(h);
    ReportsValid(name, inst, r.notices, at);
    assert ValidHistory(h);
    PresenceTheorems.ReadRefinesLastWrites(ttl, h, name, clock, clock);
    HeartbeatRecord(g, name, inst, users, t, Slot(name, user, inst));
    if user in LiveUsers(ttl, m, name, clock) {
      var s :| s in m && s.room == name && clock <= m[s] + ttl && s.user == user;
      HeartbeatRecord(g, name, inst, users, t, s);
      ReportsRecord(name, inst, r.notices, at, s);
      NoGhosts(name, es, user);
    }
  }
}
