/** The presence repository object: its calls, each proved against the map of last writes. */
module PresenceRepository {
  import opened Decimal
  import opened Sorting
  import opened Redis
  import opened Presence
  import opened PresenceAgreement
  import opened PresenceTheorems

  datatype RoomCount = RoomCount(name: string, count: nat)

  /** The elements of a set in some order; Redis's own order plays no part, since callers sort. */
  method Enumerate(xs: set<string>) returns (raw: seq<string>)
    ensures Distinct(raw) && forall x :: x in raw <==> x in xs
  {
    raw := [];
    var rest := xs;
    while rest != {}
      invariant Distinct(raw)
      invariant rest <= xs && forall x :: x in raw <==> x in xs - rest
      decreases rest
    {
      var x :| x in rest;
      assert x !in raw;
      raw := raw + [x];
      rest := rest - {x};
    }
  }

  /** The users the members stand for; a member without a suffix is read as its user too. */
  ghost predicate Names(raw: seq<string>, u: int) {
    exists x :: x in raw && UserOf(x) == Some(u)
  }

  /**
   One sorted, duplicate-free list of the users behind the members, or an error as soon as
   one member does not start with a number.
   */
  method CollapseUsers(raw: seq<string>) returns (r: Option<seq<int>>)
    ensures r.None? <==> exists x :: x in raw && UserOf(x).None?
    ensures r.Some? ==> Ascending(r.value) && forall u :: u in r.value <==> Names(raw, u)
  {
    var seen: set<int> := {};
    var userIDs: seq<int> := [];
    for i := 0 to |raw|
      invariant Distinct(userIDs) && forall u :: u in userIDs <==> u in seen
      invariant forall x :: x in raw[..i] ==> UserOf(x).Some? && UserOf(x).value in seen
      invariant forall u :: u in seen ==> Names(raw, u)
    {
      assert raw[i] in raw;
      assert raw[..i + 1] == raw[..i] + [raw[i]];
      match UserOf(raw[i])
      case None => return None;
      case Some(userID) =>
        if userID !in seen {
          seen := seen + {userID};
          userIDs := userIDs + [userID];
        }
    }
    assert raw[..|raw|] == raw;
    SortDistinctInts(userIDs);
    r := Some(Sort(userIDs, IntLeq));
  }

  /** The one ascending list of the users. */
  ghost predicate IsTheList(ids: seq<int>, users: set<Int64>) {
    forall s: seq<int> :: s == ids <==> Ascending(s) && forall u :: u in s <==> u in users
  }

  lemma TheOnlyList(ids: seq<int>, users: set<Int64>)
    requires Ascending(ids) && forall u :: u in ids <==> u in users
    ensures IsTheList(ids, users)
  {
    forall s: seq<int> | Ascending(s) && forall u :: u in s <==> u in users ensures s == ids {
      AscendingUnique(s, ids);
    }
  }

  predicate ByName(a: RoomCount, b: RoomCount) {
    StringLeq(a.name, b.name)
  }

  lemma ByNameTotal()
    ensures TotalOrder(ByName)
  {
    forall a: RoomCount, b ensures ByName(a, b) || ByName(b, a) {
      StringLeqConnected(a.name, b.name);
    }
    forall a: RoomCount, b, c | ByName(a, b) && ByName(b, c) ensures ByName(a, c) {
      StringLeqTransitive(a.name, b.name, c.name);
    }
  }

  /** Sorted by name, no name twice. */
  ghost predicate NameOrdered(s: seq<RoomCount>) {
    && Sorted(s, ByName)
    && forall i, j :: 0 <= i < j < |s| ==> s[i].name != s[j].name
  }

  lemma SortByName(s: seq<RoomCount>)
    requires forall i, j :: 0 <= i < j < |s| ==> s[i].name != s[j].name
    ensures NameOrdered(Sort(s, ByName))
    ensures forall x :: x in Sort(s, ByName) <==> x in s
  {
    var t := Sort(s, ByName);
    ByNameTotal();
    SortSorts(s, ByName);
    assert Distinct(s);
    PermutationKeepsDistinct(s, t);
    forall i, j | 0 <= i < j < |t| ensures t[i].name != t[j].name {
      assert t[i] in s && t[j] in s && t[i] != t[j];
    }
  }

  /** A strictly ascending list is as long as the set of its elements. */
  lemma {:induction false} AscendingLength(s: seq<int>, xs: set<int>)
    requires Ascending(s) && forall x :: x in s <==> x in xs
    ensures |s| == |xs|
  {
    if s != [] {
      var last := s[|s| - 1];
      assert last in xs;
      forall x ensures x in s[..|s| - 1] <==> x in xs - {last} {
        assert x in s[..|s| - 1] ==> x in s && x != last;
        assert x in s && x != last ==> x in s[..|s| - 1];
      }
      AscendingLength(s[..|s| - 1], xs - {last});
    } else {
      forall x ensures x !in xs {
        assert x in s <==> x in xs;
      }
    }
  }

  /** Pruning never removes what the same read returns. */
  lemma {:induction false} PruneKeepsInRange(db: Db, keys: seq<string>, key: string, now: int)
    ensures InRange(Prune(db, keys, now), key, now) == InRange(db, key, now)
    decreases keys
  {
    if keys != [] {
      PruneKeepsInRange(ZRemBelow(db, keys[0], now), keys[1..], key, now);
      ScoresAfterPrune(db, keys[0], now);
    }
  }

  lemma {:induction false} PruneLast(db: Db, keys: seq<string>, key: string, now: int)
    ensures Prune(db, keys + [key], now) == ZRemBelow(Prune(db, keys, now), key, now)
    decreases keys
  {
    if keys == [] {
      assert [key][1..] == [];
      assert [] + [key] == [key];
    } else {
      PruneLast(ZRemBelow(db, keys[0], now), keys[1..], key, now);
      assert (keys + [key])[1..] == keys[1..] + [key];
    }
  }

  lemma MembersReadInRange(db: Db, keys: seq<string>, room: string, now: int, clock: int)
    ensures InRange(Prune(Sweep(db, clock), keys, now), RoomKey(room), now) == MembersRead(db, room, now, clock)
  {
    PruneKeepsInRange(Sweep(db, clock), keys, RoomKey(room), now);
    PruneKeepsInRange(Sweep(db, clock), [RoomKey(room)], RoomKey(room), now);
    PruneLast(Sweep(db, clock), [], RoomKey(room), now);
    assert [] + [RoomKey(room)] == [RoomKey(room)];
  }

  lemma ExtendHistory(ttl: int, h: seq<Event>, e: Event)
    requires ValidHistory(h) && NotBefore(h, e.clock) && Causal(e)
    ensures ValidHistory(h + [e]) && NotBefore(h + [e], e.clock)
    ensures Run(ttl, h + [e]) == Apply(ttl, Run(ttl, h), e)
    ensures LastWrites(h + [e]) == Record(LastWrites(h), e.op)
  {
    assert (h + [e])[..|h|] == h;
  }

  lemma OnlineRecords(m: Stamps, room: string, user: Int64, inst: string, stamp: int)
    ensures Record(m, Online(room, user, inst, stamp)) == m[Slot(room, user, inst) := stamp]
    ensures Members([user], inst) == [Member(user, inst)]
  {
  }

  /** The members of a heartbeat, in the order of its users. */
  method BuildMembers(users: seq<Int64>, inst: string) returns (members: seq<string>)
    ensures members == Members(users, inst)
  {
    members := [];
    for i := 0 to |users|
      invariant members == Members(users[..i], inst)
    {
      members := members + [Member(users[i], inst)];
    }
    assert users[..|users|] == users;
  }

  /** The users a listing counts: nobody when one member is malformed. */
  function Counted(xs: set<string>): set<Int64> {
    if forall x :: x in xs ==> UserOf(x).Some? then Parsed(xs) else {}
  }

  /** The number of users behind the members read. */
  method CountUsers(xs: set<string>) returns (count: nat)
    ensures count == |Counted(xs)|
  {
    var raw := Enumerate(xs);
    var users := CollapseUsers(raw);
    match users
    case None =>
      // One room with a malformed member is skipped, not fatal.
      count := 0;
    case Some(ids) =>
      forall u ensures u in ids <==> u in Parsed(xs) {
        assert u in ids <==> Names(raw, u);
      }
      AscendingLength(ids, Parsed(xs));
      count := |ids|;
  }

  /** How many users a listing counts in a room of a store. */
  function RoomTotal(d: Db, room: string, now: int): nat {
    |Counted(InRange(d, RoomKey(room), now))|
  }

  /** The counting loop of ListRooms, over a store whose expired keys are already gone. */
  method CountEach(d0: Db, rooms: seq<string>, now: int) returns (result: seq<RoomCount>, d: Db)
    requires Distinct(rooms)
    ensures d == Prune(d0, RoomKeys(rooms), now)
    ensures NameOrdered(result)
    ensures forall rc :: rc in result <==> rc.name in rooms && rc.count == RoomTotal(d0, rc.name, now) && rc.count > 0
  {
    d := d0;
    result := [];
    for i := 0 to |rooms|
      invariant d == Prune(d0, RoomKeys(rooms[..i]), now)
      invariant forall j, k :: 0 <= j < k < |result| ==> result[j].name != result[k].name
      invariant forall rc :: rc in result <==>
                  rc.name in rooms[..i] && rc.count == RoomTotal(d0, rc.name, now) && rc.count > 0
    {
      var room := rooms[i];
      assert rooms[..i + 1] == rooms[..i] + [room] && room !in rooms[..i];
      assert RoomKeys(rooms[..i + 1]) == RoomKeys(rooms[..i]) + [RoomKey(room)];
      PruneLast(d0, RoomKeys(rooms[..i]), RoomKey(room), now);
      PruneKeepsInRange(d0, RoomKeys(rooms[..i + 1]), RoomKey(room), now);
      d := ZRemBelow(d, RoomKey(room), now);
      var count := CountUsers(InRange(d, RoomKey(room), now));
      assert count == RoomTotal(d0, room, now);
      if count != 0 {
        result := result + [RoomCount(room, count)];
      }
    }
    assert rooms[..|rooms|] == rooms;
    SortByName(result);
    result := Sort(result, ByName);
  }

  class PresenceRepository {
    const ttl: int
    var db: Db
    ghost var history: seq<Event>

    ghost predicate Valid()
      reads this
    {
      ValidHistory(history) && db == Run(ttl, history)
    }

    ghost predicate Ready(clock: int)
      reads this
    {
      Valid() && NotBefore(history, clock)
    }

    /** The last write of every slot: what the store stands for. */
    ghost function Stamps(): Presence.Stamps
      reads this
    {
      LastWrites(history)
    }

    constructor (ttl: int)
      ensures Valid() && history == [] && this.ttl == ttl
    {
      this.ttl := ttl;
      db := map[];
      history := [];
    }

    method SetOnline(room: string, user: Int64, inst: string, stamp: int, clock: int)
      requires Ready(clock) && stamp <= clock
      modifies this
      ensures Valid() && history == old(history) + [Event(clock, Online(room, user, inst, stamp))]
      ensures Stamps() == old(Stamps())[Slot(room, user, inst) := stamp]
    {
      var d1 := Touch(ttl, Sweep(db, clock), RoomKey(room), [Member(user, inst)], stamp, clock);
      var d2 := Touch(ttl, d1, INDEX_KEY, [room], stamp, clock);
      ExtendHistory(ttl, history, Event(clock, Online(room, user, inst, stamp)));
      OnlineRecords(Stamps(), room, user, inst, stamp);
      db := d2;
      history := history + [Event(clock, Online(room, user, inst, stamp))];
    }

    method SetOffline(room: string, user: Int64, inst: string, clock: int)
      requires Ready(clock)
      modifies this
      ensures Valid() && history == old(history) + [Event(clock, Offline(room, user, inst))]
      ensures Stamps() == old(Stamps()) - {Slot(room, user, inst)}
    {
      var d := ZRem(Sweep(db, clock), RoomKey(room), Member(user, inst));
      if ZCard(d, RoomKey(room)) == 0 {
        d := ZRem(d, INDEX_KEY, room);
      } else {
        d := Expire(d, RoomKey(room), OfflineLife(ttl), clock);
      }
      ExtendHistory(ttl, history, Event(clock, Offline(room, user, inst)));
      db := d;
      history := history + [Event(clock, Offline(room, user, inst))];
    }

    method Refresh(room: string, inst: string, users: seq<Int64>, stamp: int, clock: int)
      requires Ready(clock) && stamp <= clock
      modifies this
      ensures Valid() && history == old(history) + [Event(clock, Presence.Refresh(room, inst, users, stamp))]
      ensures forall s: Slot :: s in Stamps() <==>
                s in old(Stamps()) || (s.room == room && s.inst == inst && s.user in users)
      ensures forall s :: s in Stamps() ==>
                Stamps()[s] == if s.room == room && s.inst == inst && s.user in users then stamp else old(Stamps())[s]
    {
      ExtendHistory(ttl, history, Event(clock, Presence.Refresh(room, inst, users, stamp)));
      if users != [] {
        var members := BuildMembers(users, inst);
        var d1 := Touch(ttl, Sweep(db, clock), RoomKey(room), members, stamp, clock);
        db := Touch(ttl, d1, INDEX_KEY, [room], stamp, clock);
      }
      history := history + [Event(clock, Presence.Refresh(room, inst, users, stamp))];
    }

    /**
     Ascending and duplicate-free. From half a second of TTL on it is never an error, nobody
     still live at the commit is missing and nobody already dead at `now` is listed.
     */
    method ListOnline(room: string, now: int, clock: int) returns (r: Option<seq<int>>)
      requires Ready(clock) && now <= clock
      modifies this
      ensures Valid() && history == old(history) + [Event(clock, ReadRooms([room], now))]
      ensures Stamps() == old(Stamps())
      ensures r.Some? ==> Ascending(r.value)
      ensures ttl >= 500 ==> r.Some?
      ensures ttl >= 500 ==> forall u :: u in LiveUsers(ttl, Stamps(), room, clock) ==> u in r.value
      ensures ttl >= 500 ==> forall u :: u in r.value ==> u in LiveUsers(ttl, Stamps(), room, now)
      ensures ttl >= 500 && now == clock ==> IsTheList(r.value, LiveUsers(ttl, Stamps(), room, now))
    {
      if ttl >= 500 {
        ReadRefinesLastWrites(ttl, history, room, now, clock);
      }
      var d := ZRemBelow(Sweep(db, clock), RoomKey(room), now);
      var raw := Enumerate(InRange(d, RoomKey(room), now));
      r := CollapseUsers(raw);
      forall u ensures Names(raw, u) <==> u in UsersRead(db, room, now, clock) {
      }
      PruneLast(Sweep(db, clock), [], RoomKey(room), now);
      assert RoomKeys([room]) == [] + [RoomKey(room)];
      ExtendHistory(ttl, history, Event(clock, ReadRooms([room], now)));
      db := d;
      history := history + [Event(clock, ReadRooms([room], now))];
      if ttl >= 500 && now == clock {
        TheOnlyList(r.value, LiveUsers(ttl, Stamps(), room, now));
      }
    }

    /** First transaction of ListRooms: the rooms the index names. */
    method ReadIndex(now: int, clock: int) returns (rooms: seq<string>)
      requires Ready(clock) && now <= clock
      modifies this
      ensures Valid() && history == old(history) + [Event(clock, Presence.ReadIndex(now))]
      ensures Stamps() == old(Stamps())
      ensures Distinct(rooms) && forall r :: r in rooms <==> r in RoomsRead(old(db), now, clock)
    {
      var d := ZRemBelow(Sweep(db, clock), INDEX_KEY, now);
      rooms := Enumerate(InRange(d, INDEX_KEY, now));
      PruneLast(Sweep(db, clock), [], INDEX_KEY, now);
      assert [] + [INDEX_KEY] == [INDEX_KEY];
      ExtendHistory(ttl, history, Event(clock, Presence.ReadIndex(now)));
      db := d;
      history := history + [Event(clock, Presence.ReadIndex(now))];
    }

    /**
     Second transaction of ListRooms: count the users of every room the index named, in this
     snapshot and relative to the instant the call started at.
     */
    method CountRooms(rooms: seq<string>, now: int, clock: int) returns (result: seq<RoomCount>)
      requires Ready(clock) && now <= clock && Distinct(rooms)
      modifies this
      ensures Valid() && history == old(history) + [Event(clock, ReadRooms(rooms, now))]
      ensures Stamps() == old(Stamps())
      ensures NameOrdered(result)
      ensures forall rc :: rc in result <==>
                rc.name in rooms && rc.count == |Counted(MembersRead(old(db), rc.name, now, clock))| > 0
      ensures ttl >= 500 ==>
                forall r :: Counted(MembersRead(old(db), r, now, clock)) == UsersRead(old(db), r, now, clock)
    {
      forall r ensures InRange(Sweep(db, clock), RoomKey(r), now) == MembersRead(db, r, now, clock)
               ensures ttl >= 500 ==> Counted(MembersRead(db, r, now, clock)) == UsersRead(db, r, now, clock)
      {
        MembersReadInRange(db, [], r, now, clock);
        if ttl >= 500 {
          ReadRefinesLastWrites(ttl, history, r, now, clock);
        }
      }
      var d;
      result, d := CountEach(Sweep(db, clock), rooms, now);
      ExtendHistory(ttl, history, Event(clock, ReadRooms(rooms, now)));
      db := d;
      history := history + [Event(clock, ReadRooms(rooms, now))];
    }

    /**
     Both transactions with nothing in between. Every room with somebody live at the second
     commit is reported, no empty room is, and each count lies between the users live at the
     commit and those live at `now`; when the clock has not moved both bounds are the same.
     */
    method ListRooms(now: int, clock1: int, clock2: int) returns (result: seq<RoomCount>)
      requires Ready(clock1) && now <= clock1 <= clock2
      modifies this
      ensures Valid() && Stamps() == old(Stamps())
      ensures NameOrdered(result)
      ensures ttl >= 500 && Covered(ttl, old(history), clock1) ==>
                forall r :: r in LiveRooms(ttl, Stamps(), clock2) ==> exists rc :: rc in result && rc.name == r
      ensures ttl >= 500 ==> forall rc :: rc in result ==> rc.name in LiveRooms(ttl, Stamps(), now)
      ensures ttl >= 500 ==> forall rc :: rc in result ==>
                0 < rc.count && |LiveUsers(ttl, Stamps(), rc.name, clock2)| <= rc.count
                <= |LiveUsers(ttl, Stamps(), rc.name, now)|
    {
      if ttl >= 500 && Covered(ttl, history, clock1) {
        IndexReadComplete(ttl, history, now, clock1);
      }
      LiveRoomsShrink(ttl, Stamps(), clock1, clock2);
      var rooms := ReadIndex(now, clock1);
      result := [];
      if rooms != [] {
        ghost var h, d := history, db;
        result := CountRooms(rooms, now, clock2);
        if ttl >= 500 {
          forall r ensures CountBounds(ttl, d, Stamps(), r, now, clock2) {
            CountsBounded(ttl, h, r, now, clock2);
          }
          ReportBounds(ttl, d, Stamps(), rooms, now, clock2, result);
        }
      }
    }
  }

  /** What a count read from the store says about the map of last writes. */
  ghost predicate CountBounds(ttl: int, db: Db, m: Stamps, r: string, now: int, clock: int) {
    && |LiveUsers(ttl, m, r, clock)| <= |UsersRead(db, r, now, clock)| <= |LiveUsers(ttl, m, r, now)|
    && (r in LiveRooms(ttl, m, clock) ==> UsersRead(db, r, now, clock) != {})
    && (UsersRead(db, r, now, clock) != {} ==> r in LiveRooms(ttl, m, now))
  }

  lemma ReportBounds(ttl: int, db: Db, m: Stamps, rooms: seq<string>, now: int, clock: int, result: seq<RoomCount>)
    requires forall r :: CountBounds(ttl, db, m, r, now, clock)
    requires forall rc :: rc in result <==> rc.name in rooms && rc.count == |UsersRead(db, rc.name, now, clock)| > 0
    ensures forall r :: r in LiveRooms(ttl, m, clock) && r in rooms ==> exists rc :: rc in result && rc.name == r
    ensures forall rc :: rc in result ==> rc.name in LiveRooms(ttl, m, now)
    ensures forall rc :: rc in result ==>
              |LiveUsers(ttl, m, rc.name, clock)| <= rc.count <= |LiveUsers(ttl, m, rc.name, now)|
  {
    forall r | r in LiveRooms(ttl, m, clock) && r in rooms ensures exists rc :: rc in result && rc.name == r {
      assert CountBounds(ttl, db, m, r, now, clock);
      assert RoomCount(r, |UsersRead(db, r, now, clock)|) in result;
    }
    forall rc | rc in result
      ensures rc.name in LiveRooms(ttl, m, now)
      ensures |LiveUsers(ttl, m, rc.name, clock)| <= rc.count <= |LiveUsers(ttl, m, rc.name, now)|
    {
      assert CountBounds(ttl, db, m, rc.name, now, clock);
    }
  }

  lemma CountsBounded(ttl: int, h: seq<Event>, r: string, now: int, clock: int)
    requires ttl >= 500 && ValidHistory(h) && NotBefore(h, clock) && now <= clock
    ensures CountBounds(ttl, Run(ttl, h), LastWrites(h), r, now, clock)
  {
    var m := LastWrites(h);
    ReadRefinesLastWrites(ttl, h, r, now, clock);
    LiveRoomHasUser(ttl, m, r, clock);
    LiveRoomHasUser(ttl, m, r, now);
    SubsetSize(LiveUsers(ttl, m, r, clock), UsersRead(Run(ttl, h), r, now, clock));
    SubsetSize(UsersRead(Run(ttl, h), r, now, clock), LiveUsers(ttl, m, r, now));
  }

  lemma LiveRoomsShrink(ttl: int, m: Stamps, now: int, later: int)
    requires now <= later
    ensures LiveRooms(ttl, m, later) <= LiveRooms(ttl, m, now)
  {
  }

  lemma SubsetSize<T>(a: set<T>, b: set<T>)
    requires a <= b
    ensures |a| <= |b|
  {
    assert b == a + (b - a);
  }
}
