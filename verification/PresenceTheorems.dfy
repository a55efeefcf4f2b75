/** What the agreement means for the reads, over every run of the presence store. */
module PresenceTheorems {
  import opened Decimal
  import opened Redis
  import opened Presence
  import opened PresenceAgreement

  // ----- reading one room

  /** The members a read of the room returns, after key expiry and pruning. */
  function MembersRead(db: Db, room: string, now: int, clock: int): set<string> {
    InRange(ZRemBelow(Sweep(db, clock), RoomKey(room), now), RoomKey(room), now)
  }

  /** The users behind those members that parse. */
  function Parsed(xs: set<string>): set<Int64> {
    set x | x in xs && UserOf(x).Some? :: UserOf(x).value
  }

  function UsersRead(db: Db, room: string, now: int, clock: int): set<Int64> {
    Parsed(MembersRead(db, room, now, clock))
  }

  /**
   The presence store refines the plain map of last writes. Every stored member parses;
   a read misses no user still live when it commits, and returns only users live at the
   instant it asked about. When the two instants coincide the answer is exact.
   */
  lemma ReadRefinesLastWrites(ttl: int, h: seq<Event>, room: string, now: int, clock: int)
    requires ttl >= 500 && ValidHistory(h) && NotBefore(h, clock) && now <= clock
    ensures forall x | x in MembersRead(Run(ttl, h), room, now, clock) :: UserOf(x).Some?
    ensures LiveUsers(ttl, LastWrites(h), room, clock)
         <= UsersRead(Run(ttl, h), room, now, clock)
         <= LiveUsers(ttl, LastWrites(h), room, now)
  {
    var m := LastWrites(h);
    RunAgrees(ttl, h, clock);
    SweepAgrees(ttl, Run(ttl, h), m, clock, clock);
    AgreedRead(ttl, Run(ttl, h), m, room, now, clock);
  }

  lemma AgreedRead(ttl: int, db: Db, m: Stamps, room: string, now: int, clock: int)
    requires Agrees(ttl, Sweep(db, clock), m, clock) && now <= clock
    ensures forall x | x in MembersRead(db, room, now, clock) :: UserOf(x).Some?
    ensures LiveUsers(ttl, m, room, clock) <= UsersRead(db, room, now, clock) <= LiveUsers(ttl, m, room, now)
  {
    var d := Sweep(db, clock);
    ScoresAfterPrune(d, RoomKey(room), now);
    forall x | x in MembersRead(db, room, now, clock)
      ensures UserOf(x).Some? && UserOf(x).value in LiveUsers(ttl, m, room, now)
    {
      assert Backed(ttl, m, room, x, Scores(d, RoomKey(room))[x]);
      var s := Slot(room, UserOf(x).value, InstOf(x));
      assert s in m && s.room == room && now <= m[s] + ttl;
    }
    forall u | u in LiveUsers(ttl, m, room, clock) ensures u in UsersRead(db, room, now, clock) {
      var s :| s in m && s.room == room && clock <= m[s] + ttl && s.user == u;
      assert Held(d, s, m[s] + ttl);
      MemberRoundTrip(s.user, s.inst);
      assert Member(s.user, s.inst) in MembersRead(db, room, now, clock);
    }
  }

  // ----- the room index

  /** The rooms the first transaction of ListRooms returns. */
  function RoomsRead(db: Db, now: int, clock: int): set<string> {
    InRange(ZRemBelow(Sweep(db, clock), INDEX_KEY, now), INDEX_KEY, now)
  }

  /** No room was last written with a stamp older than one of its live members'. */
  ghost predicate Covered(ttl: int, h: seq<Event>, clock: int) {
    var m, l := LastWrites(h), LastRoomWrites(h);
    forall s | s in m && clock <= m[s] + ttl :: s.room in l && m[s] <= l[s.room]
  }

  lemma IndexReadComplete(ttl: int, h: seq<Event>, now: int, clock: int)
    requires ttl >= 500 && ValidHistory(h) && NotBefore(h, clock) && Covered(ttl, h, clock) && now <= clock
    ensures LiveRooms(ttl, LastWrites(h), clock) <= RoomsRead(Run(ttl, h), now, clock)
  {
    var m, l := LastWrites(h), LastRoomWrites(h);
    RunAgrees(ttl, h, clock);
    RunIndexed(ttl, h, clock);
    SweepIndexed(ttl, Run(ttl, h), m, l, clock, clock);
    ScoresAfterPrune(Sweep(Run(ttl, h), clock), INDEX_KEY, now);
  }

  /** From clock on, as long as nothing is written, the index names every live room. */
  ghost predicate IndexComplete(ttl: int, h: seq<Event>, clock: int) {
    forall later | clock <= later :: LiveRooms(ttl, LastWrites(h), later) <= RoomsRead(Run(ttl, h), later, later)
  }

  /**
   The room index agrees with the data exactly when no room's last write carries an older
   stamp than one of its live members.
   */
  lemma IndexCompleteIffCovered(ttl: int, h: seq<Event>, clock: int)
    requires ttl >= 500 && ValidHistory(h) && NotBefore(h, clock)
    ensures IndexComplete(ttl, h, clock) <==> Covered(ttl, h, clock)
  {
    if Covered(ttl, h, clock) {
      forall later | clock <= later
        ensures LiveRooms(ttl, LastWrites(h), later) <= RoomsRead(Run(ttl, h), later, later)
      {
        IndexReadComplete(ttl, h, later, later);
      }
    } else {
      RunIndexed(ttl, h, clock);
      var m, l := LastWrites(h), LastRoomWrites(h);
      var s :| s in m && clock <= m[s] + ttl && l[s.room] < m[s];
      HiddenRoom(ttl, Run(ttl, h), m, l, clock, s);
    }
  }

  /** A room whose last write is older than a live member drops out of the index before it. */
  lemma HiddenRoom(ttl: int, db: Db, m: Stamps, l: RoomStamps, clock: int, s: Slot)
    requires Indexed(ttl, db, m, l, clock) && s in m && l[s.room] < m[s]
    ensures !(LiveRooms(ttl, m, m[s] + ttl) <= RoomsRead(db, m[s] + ttl, m[s] + ttl))
  {
    var later := m[s] + ttl;
    assert s.room in LiveRooms(ttl, m, later);
    ScoresAfterPrune(Sweep(db, later), INDEX_KEY, later);
    assert s.room !in RoomsRead(db, later, later);
  }

  predicate InOrder(e: Event, f: Event) {
    e.op.Refresh? && f.op.Refresh? && e.op.room == f.op.room && e.op.users != [] && f.op.users != [] ==>
      e.op.stamp <= f.op.stamp
  }

  /** Within each room, stamps were taken in commit order. */
  ghost predicate StampsInOrder(h: seq<Event>) {
    forall i, j :: 0 <= i < j < |h| ==> InOrder(h[i], h[j])
  }

  /** The last write of a room is somewhere in the history. */
  lemma {:induction false} RoomStampOrigin(h: seq<Event>, room: string) returns (i: nat)
    requires room in LastRoomWrites(h)
    ensures i < |h| && h[i].op.Refresh? && h[i].op.room == room && h[i].op.users != []
    ensures h[i].op.stamp == LastRoomWrites(h)[room]
  {
    i := |h| - 1;
    if !(h[i].op.Refresh? && h[i].op.room == room && h[i].op.users != []) {
      i := RoomStampOrigin(h[..|h| - 1], room);
    }
  }

  /** Stamps in commit order are enough for the index to be complete. */
  lemma {:induction false} OrderedIsCovered(h: seq<Event>, s: Slot)
    requires StampsInOrder(h) && s in LastWrites(h)
    ensures s.room in LastRoomWrites(h) && LastWrites(h)[s] <= LastRoomWrites(h)[s.room]
  {
    var e, g := h[|h| - 1], h[..|h| - 1];
    if !(e.op.Refresh? && s.room == e.op.room && s.inst == e.op.inst && s.user in e.op.users) {
      OrderedIsCovered(g, s);
      var i := RoomStampOrigin(g, s.room);
      assert InOrder(h[i], h[|h| - 1]);
    }
  }

  /**
   ListRooms is two transactions. Its first sees the history `h1`, its second the history
   `h2`, with any transactions in between. Whatever happened there, a room live in both
   snapshots is reported and a room that is reported is not empty.
   */
  function Reported(ttl: int, h1: seq<Event>, clock1: int, h2: seq<Event>, clock2: int, now: int): set<string> {
    set r | r in RoomsRead(Run(ttl, h1), now, clock1) && UsersRead(Run(ttl, h2), r, now, clock2) != {}
  }

  lemma ListRoomsInterleaved(ttl: int, h1: seq<Event>, clock1: int, h2: seq<Event>, clock2: int, now: int)
    requires ttl >= 500 && h1 <= h2 && ValidHistory(h2) && Covered(ttl, h1, clock1)
    requires NotBefore(h1, clock1) && NotBefore(h2, clock2) && now <= clock1 <= clock2
    ensures LiveRooms(ttl, LastWrites(h1), clock1) * LiveRooms(ttl, LastWrites(h2), clock2)
         <= Reported(ttl, h1, clock1, h2, clock2, now)
         <= LiveRooms(ttl, LastWrites(h2), now)
  {
    IndexReadComplete(ttl, h1, now, clock1);
    forall r ensures r in LiveRooms(ttl, LastWrites(h2), clock2) ==> UsersRead(Run(ttl, h2), r, now, clock2) != {}
             ensures UsersRead(Run(ttl, h2), r, now, clock2) != {} ==> r in LiveRooms(ttl, LastWrites(h2), now)
    {
      ReadRefinesLastWrites(ttl, h2, r, now, clock2);
      LiveRoomHasUser(ttl, LastWrites(h2), r, clock2);
      LiveRoomHasUser(ttl, LastWrites(h2), r, now);
    }
  }

  lemma LiveRoomHasUser(ttl: int, m: Stamps, room: string, now: int)
    ensures room in LiveRooms(ttl, m, now) <==> LiveUsers(ttl, m, room, now) != {}
  {
    if room in LiveRooms(ttl, m, now) {
      var s :| s in m && now <= m[s] + ttl && s.room == room;
      assert s.user in LiveUsers(ttl, m, room, now);
    }
    if LiveUsers(ttl, m, room, now) != {} {
      var u :| u in LiveUsers(ttl, m, room, now);
    }
  }

  // ----- when the guarantees fail

  /** No live member is ever missing from the store. */
  ghost predicate LosesNothing(ttl: int) {
    forall h, clock | ValidHistory(h) && NotBefore(h, clock) :: Faithful(ttl, h, clock)
  }

  ghost predicate Faithful(ttl: int, h: seq<Event>, clock: int) {
    forall s | s in LastWrites(h) && clock <= LastWrites(h)[s] + ttl ::
      Held(Run(ttl, h), s, LastWrites(h)[s] + ttl)
  }

  /** Two users join a room and one of them leaves, all at instant 0. */
  function TwoJoinOneLeaves(room: string, inst: string, u: Int64, v: Int64): seq<Event> {
    [Event(0, Online(room, u, inst, 0)), Event(0, Online(room, v, inst, 0)), Event(0, Offline(room, u, inst))]
  }

  /**
   The offline script truncates twice the TTL to whole seconds. Below half a second that is
   zero, and EXPIRE 0 deletes the whole room; from half a second on nothing live is lost. With
   a negative TTL nothing is ever live.
   */
  lemma TtlThreshold(ttl: int)
    ensures LosesNothing(ttl) <==> ttl >= 500 || ttl < 0
  {
    if ttl >= 500 {
      forall h, clock | ValidHistory(h) && NotBefore(h, clock) ensures Faithful(ttl, h, clock) {
        RunAgrees(ttl, h, clock);
      }
    } else if ttl < 0 {
      forall h, clock | ValidHistory(h) && NotBefore(h, clock) ensures Faithful(ttl, h, clock) {
        // That no stamp is later than the clock does not depend on the TTL.
        RunAgrees(500, h, clock);
      }
    } else {
      var h := ShortTtlWitness(ttl);
    }
  }

  lemma ShortTtlWitness(ttl: int) returns (h: seq<Event>)
    requires 0 <= ttl < 500
    ensures ValidHistory(h) && NotBefore(h, 0) && !Faithful(ttl, h, 0)
  {
    h := TwoJoinOneLeaves([], [], 1, 2);
    TwoJoinOneLeavesValid([], [], 1, 2);
    ShortTtlLosesUser(ttl, [], [], 1, 2);
  }

  lemma TwoJoinOneLeavesValid(room: string, inst: string, u: Int64, v: Int64)
    ensures ValidHistory(TwoJoinOneLeaves(room, inst, u, v)) && NotBefore(TwoJoinOneLeaves(room, inst, u, v), 0)
  {
  }

  /** Below half a second, the user who stayed is lost whenever another one leaves. */
  lemma ShortTtlLosesUser(ttl: int, room: string, inst: string, u: Int64, v: Int64)
    requires 0 <= ttl < 500 && u != v
    ensures !Faithful(ttl, TwoJoinOneLeaves(room, inst, u, v), 0)
  {
    var e1, e2 := Event(0, Online(room, u, inst, 0)), Event(0, Online(room, v, inst, 0));
    var e3 := Event(0, Offline(room, u, inst));
    var h := TwoJoinOneLeaves(room, inst, u, v);
    var s := Slot(room, v, inst);
    assert h == [e1, e2] + [e3] && [e1, e2] == [e1] + [e2];
    RecordedLast([e1], e2, s);
    RecordedBefore([e1, e2], e3, s);
    RoomLostOnLeave(ttl, [e1, e2], e3);
    LostSlot(ttl, h, s);
  }

  lemma LostSlot(ttl: int, h: seq<Event>, s: Slot)
    requires ttl >= 0 && s in LastWrites(h) && LastWrites(h)[s] == 0
    requires RoomKey(s.room) !in Run(ttl, h)
    ensures !Faithful(ttl, h, 0)
  {
    assert !Held(Run(ttl, h), s, LastWrites(h)[s] + ttl);
  }

  lemma RoomLostOnLeave(ttl: int, h: seq<Event>, e: Event)
    requires 0 <= ttl < 500 && e.op.Offline?
    ensures RoomKey(e.op.room) !in Run(ttl, h + [e])
  {
    RunLast(ttl, h, e);
    KeysOutliveTtl(ttl);
    RemoveWithNoLife(ttl, Run(ttl, h), e.op.room, Member(e.op.user, e.op.inst), e.clock);
  }

  lemma RunLast(ttl: int, h: seq<Event>, e: Event)
    ensures Run(ttl, h + [e]) == Apply(ttl, Run(ttl, h), e)
  {
    assert (h + [e])[..|h|] == h;
  }

  predicate Writes(op: Op, s: Slot) {
    op.Refresh? && op.room == s.room && op.inst == s.inst && s.user in op.users
  }

  predicate Clears(op: Op, s: Slot) {
    op.Offline? && Slot(op.room, op.user, op.inst) == s
  }

  lemma RecordedLast(h: seq<Event>, e: Event, s: Slot)
    requires Writes(e.op, s)
    ensures s in LastWrites(h + [e]) && LastWrites(h + [e])[s] == e.op.stamp
  {
    assert (h + [e])[..|h|] == h;
  }

  lemma RecordedBefore(h: seq<Event>, e: Event, s: Slot)
    requires !Writes(e.op, s) && !Clears(e.op, s)
    ensures s in LastWrites(h + [e]) <==> s in LastWrites(h)
    ensures s in LastWrites(h) ==> LastWrites(h + [e])[s] == LastWrites(h)[s]
  {
    assert (h + [e])[..|h|] == h;
  }

  lemma RemoveWithNoLife(ttl: int, db: Db, room: string, x: string, clock: int)
    requires OfflineLife(ttl) == 0
    ensures RoomKey(room) !in Remove(ttl, db, room, x, clock)
  {
    RoomKeysDistinct();
  }

  /** Two users join one room, committed in this order at the same instant. */
  function TwoWrites(room: string, inst: string, u: Int64, t1: int, v: Int64, t2: int, clock: int): seq<Event> {
    [Event(clock, Online(room, u, inst, t1)), Event(clock, Online(room, v, inst, t2))]
  }

  /**
   Stamps out of commit order hide a live room from ListRooms, unless the older write was
   already past its TTL when it committed; in order they never do.
   */
  lemma StampOrderMatters(ttl: int, room: string, inst: string, u: Int64, t1: int, v: Int64, t2: int, clock: int)
    requires ttl >= 500 && u != v && t1 <= clock && t2 <= clock
    ensures ValidHistory(TwoWrites(room, inst, u, t1, v, t2, clock))
    ensures IndexComplete(ttl, TwoWrites(room, inst, u, t1, v, t2, clock), clock) <==> t1 <= t2 || t1 + ttl < clock
  {
    var h := TwoWrites(room, inst, u, t1, v, t2, clock);
    TwoWritesValid(room, inst, u, t1, v, t2, clock);
    IndexCompleteIffCovered(ttl, h, clock);
    TwoWritesRecorded(room, inst, u, t1, v, t2, clock);
  }

  lemma TwoWritesValid(room: string, inst: string, u: Int64, t1: int, v: Int64, t2: int, clock: int)
    requires t1 <= clock && t2 <= clock
    ensures var h := TwoWrites(room, inst, u, t1, v, t2, clock); ValidHistory(h) && NotBefore(h, clock)
  {
  }

  lemma TwoWritesRecorded(room: string, inst: string, u: Int64, t1: int, v: Int64, t2: int, clock: int)
    requires u != v
    ensures var h := TwoWrites(room, inst, u, t1, v, t2, clock);
      && LastWrites(h) == map[Slot(room, u, inst) := t1, Slot(room, v, inst) := t2]
      && LastRoomWrites(h) == map[room := t2]
  {
    var h := TwoWrites(room, inst, u, t1, v, t2, clock);
    assert h[..1][..0] == [];
    assert LastWrites(h[..1]) == map[Slot(room, u, inst) := t1];
    assert LastRoomWrites(h[..1]) == map[room := t1];
  }

  // ----- a room nobody writes to is reclaimed

  predicate Touches(e: Event, room: string) {
    (e.op.Refresh? && e.op.room == room && e.op.users != []) || (e.op.Offline? && e.op.room == room)
  }

  /** A room's key expires a key's life after the last write or leave in the room, at the latest. */
  ghost predicate ExpiresBy(ttl: int, db: Db, h: seq<Event>, room: string) {
    RoomKey(room) in db ==>
      && db[RoomKey(room)].expireAt.Some?
      && exists i :: 0 <= i < |h| && Touches(h[i], room) && db[RoomKey(room)].expireAt.value <= h[i].clock + WriteLife(ttl)
  }

  lemma {:induction false} PruneKeepsDeadline(db: Db, keys: seq<string>, now: int, key: string)
    ensures key in Prune(db, keys, now) ==> key in db && Prune(db, keys, now)[key].expireAt == db[key].expireAt
    decreases keys
  {
    if keys != [] {
      PruneKeepsDeadline(ZRemBelow(db, keys[0], now), keys[1..], now, key);
    }
  }

  lemma WriteDeadline(ttl: int, db: Db, r: string, members: seq<string>, stamp: int, clock: int, room: string)
    requires ttl > 0 && members != [] && RoomKey(room) in Write(ttl, db, r, members, stamp, clock)
    ensures var deadline := Write(ttl, db, r, members, stamp, clock)[RoomKey(room)].expireAt;
      if r == room then deadline == Some(clock + WriteLife(ttl))
      else RoomKey(room) in db && deadline == db[RoomKey(room)].expireAt
  {
    ScoresAfterWrite(ttl, db, r, members, stamp, clock);
    RoomKeysDistinct();
    assert RoomKey(room) != INDEX_KEY && (r != room ==> RoomKey(room) != RoomKey(r));
  }

  lemma RemoveDeadline(ttl: int, db: Db, r: string, x: string, clock: int, room: string)
    requires RoomKey(room) in Remove(ttl, db, r, x, clock)
    ensures RoomKey(room) in db
    ensures var deadline := Remove(ttl, db, r, x, clock)[RoomKey(room)].expireAt;
      deadline == db[RoomKey(room)].expireAt || (r == room && deadline == Some(clock + OfflineLife(ttl)))
  {
    RoomKeysDistinct();
    assert RoomKey(room) != INDEX_KEY && (r != room ==> RoomKey(room) != RoomKey(r));
  }

  /** The deadline is as it was, or set by this event to a key's life from now. */
  ghost predicate DeadlineKept(ttl: int, db: Db, d: Db, e: Event, room: string)
    requires RoomKey(room) in d
  {
    || (RoomKey(room) in db && d[RoomKey(room)].expireAt == db[RoomKey(room)].expireAt)
    || (Touches(e, room) && d[RoomKey(room)].expireAt == Some(e.clock + WriteLife(ttl)))
  }

  lemma RefreshKeepsDeadline(ttl: int, db: Db, e: Event, room: string)
    requires ttl > 0 && e.op.Refresh? && RoomKey(room) in Apply(ttl, db, e)
    ensures DeadlineKept(ttl, db, Apply(ttl, db, e), e, room)
  {
    if e.op.users != [] {
      WriteDeadline(ttl, db, e.op.room, Members(e.op.users, e.op.inst), e.op.stamp, e.clock, room);
    }
  }

  lemma OfflineKeepsDeadline(ttl: int, db: Db, e: Event, room: string)
    requires ttl >= 500 && e.op.Offline? && RoomKey(room) in Apply(ttl, db, e)
    ensures DeadlineKept(ttl, db, Apply(ttl, db, e), e, room)
  {
    assert OfflineLife(ttl) == WriteLife(ttl) by {
      KeysOutliveTtl(ttl);
    }
    RemoveDeadline(ttl, db, e.op.room, Member(e.op.user, e.op.inst), e.clock, room);
  }

  lemma StepKeepsDeadline(ttl: int, db: Db, e: Event, room: string)
    requires ttl >= 500 && RoomKey(room) in Apply(ttl, db, e)
    ensures DeadlineKept(ttl, db, Apply(ttl, db, e), e, room)
  {
    match e.op
    case Refresh(_, _, _, _) => RefreshKeepsDeadline(ttl, db, e, room);
    case Offline(_, _, _) => OfflineKeepsDeadline(ttl, db, e, room);
    case ReadRooms(rooms, now) => PruneKeepsDeadline(Sweep(db, e.clock), RoomKeys(rooms), now, RoomKey(room));
    case ReadIndex(now) => PruneKeepsDeadline(Sweep(db, e.clock), [INDEX_KEY], now, RoomKey(room));
  }

  lemma {:induction false} RunExpires(ttl: int, h: seq<Event>, room: string)
    requires ttl >= 500
    ensures ExpiresBy(ttl, Run(ttl, h), h, room)
  {
    if h != [] {
      var g, e := h[..|h| - 1], h[|h| - 1];
      RunExpires(ttl, g, room);
      if RoomKey(room) in Run(ttl, h) {
        StepKeepsDeadline(ttl, Run(ttl, g), e, room);
        if RoomKey(room) in Run(ttl, g) && Run(ttl, h)[RoomKey(room)].expireAt == Run(ttl, g)[RoomKey(room)].expireAt {
          var i :| 0 <= i < |g| && Touches(g[i], room) && Run(ttl, g)[RoomKey(room)].expireAt.value <= g[i].clock + WriteLife(ttl);
          assert h[i] == g[i];
        } else {
          assert h[|h| - 1] == e;
        }
      }
    }
  }

  /**
   Redis reclaims the rooms nobody uses any more, read or not: once a key's life has passed since the last
   write or leave in a room, its key is gone.
   */
  lemma IdleRoomsReclaimed(ttl: int, h: seq<Event>, room: string, clock: int)
    requires ttl >= 500
    requires forall i :: 0 <= i < |h| && Touches(h[i], room) ==> h[i].clock + WriteLife(ttl) <= clock
    ensures RoomKey(room) !in Sweep(Run(ttl, h), clock)
  {
    RunExpires(ttl, h, room);
  }

  // ----- instances do not interfere

  predicate ByInstance(op: Op, inst: string) {
    match op
    case Refresh(_, i, _, _) => i == inst
    case Offline(_, _, i) => i == inst
    case ReadRooms(_, _) => true
    case ReadIndex(_) => true
  }

  /** The history with the writes of every other instance deleted. */
  function OnlyInstance(h: seq<Event>, inst: string): seq<Event> {
    if h == [] then []
    else
      var g := OnlyInstance(h[..|h| - 1], inst);
      if ByInstance(h[|h| - 1].op, inst) then g + [h[|h| - 1]] else g
  }

  lemma {:induction false} OnlyInstanceValid(h: seq<Event>, inst: string, clock: int)
    requires ValidHistory(h) && NotBefore(h, clock)
    ensures ValidHistory(OnlyInstance(h, inst)) && NotBefore(OnlyInstance(h, inst), clock)
  {
    if h != [] {
      OnlyInstanceValid(h[..|h| - 1], inst, h[|h| - 1].clock);
      var g := OnlyInstance(h[..|h| - 1], inst);
      var k := OnlyInstance(h, inst);
      forall i, j | 0 <= i < j < |k| ensures k[i].clock <= k[j].clock {
        if j == |g| {
          assert k[i].clock <= g[|g| - 1].clock <= k[j].clock;
        }
      }
    }
  }

  lemma {:induction false} OnlyInstanceRecords(h: seq<Event>, s: Slot)
    ensures s in LastWrites(h) <==> s in LastWrites(OnlyInstance(h, s.inst))
    ensures s in LastWrites(h) ==> LastWrites(h)[s] == LastWrites(OnlyInstance(h, s.inst))[s]
  {
    if h != [] {
      var g := OnlyInstance(h[..|h| - 1], s.inst);
      OnlyInstanceRecords(h[..|h| - 1], s);
      assert (g + [h[|h| - 1]])[..|g|] == g;
    }
  }

  /** A live score is held exactly when it comes from the slot's last write. */
  lemma HeldIffWritten(ttl: int, h: seq<Event>, clock: int, s: Slot, score: int)
    requires ttl >= 500 && ValidHistory(h) && NotBefore(h, clock) && clock <= score
    ensures Held(Run(ttl, h), s, score) <==> s in LastWrites(h) && score == LastWrites(h)[s] + ttl
  {
    RunAgrees(ttl, h, clock);
    MemberRoundTrip(s.user, s.inst);
    if Held(Run(ttl, h), s, score) {
      assert Backed(ttl, LastWrites(h), s.room, Member(s.user, s.inst), score);
    }
  }

  /** An instance's live entries do not depend on what any other instance wrote. */
  lemma InstancesDoNotInterfere(ttl: int, h: seq<Event>, clock: int, s: Slot, score: int)
    requires ttl >= 500 && ValidHistory(h) && NotBefore(h, clock) && clock <= score
    ensures Held(Run(ttl, h), s, score) <==> Held(Run(ttl, OnlyInstance(h, s.inst)), s, score)
  {
    OnlyInstanceValid(h, s.inst, clock);
    OnlyInstanceRecords(h, s);
    HeldIffWritten(ttl, h, clock, s, score);
    HeldIffWritten(ttl, OnlyInstance(h, s.inst), clock, s, score);
  }
}
