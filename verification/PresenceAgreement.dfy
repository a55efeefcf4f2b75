/** In every reachable state the sorted sets agree with the map of last writes. */
module PresenceAgreement {
  import opened Decimal
  import opened Redis
  import opened Presence

  function InstOf(x: string): string {
    CutAfter(x, ':')
  }

  /** A member's user and instance are both recovered from it, so members never collide. */
  lemma MemberRoundTrip(user: Int64, inst: string)
    ensures UserOf(Member(user, inst)) == Some(user)
    ensures InstOf(Member(user, inst)) == inst
  {
    FormatParse(user);
    CutJoined(FormatInt(user), ':', inst);
  }

  lemma RoomKeysDistinct()
    ensures forall r1, r2 {:trigger RoomKey(r1), RoomKey(r2)} :: RoomKey(r1) == RoomKey(r2) ==> r1 == r2
    ensures forall r {:trigger RoomKey(r)} :: RoomKey(r) != INDEX_KEY
  {
    forall r1, r2 | RoomKey(r1) == RoomKey(r2) ensures r1 == r2 {
      assert RoomKey(r1)[|ROOM_PREFIX|..] == r1 && RoomKey(r2)[|ROOM_PREFIX|..] == r2;
    }
    forall r ensures RoomKey(r) != INDEX_KEY {
      assert RoomKey(r)[13] == ':' && INDEX_KEY[13] == 's';
    }
  }

  /** Key deadlines lie beyond every score they guard, so EXPIRE only drops dead members. */
  ghost predicate Tidy(ttl: int, db: Db, clock: int) {
    forall k | k in db :: TidySet(ttl, db[k], clock)
  }

  ghost predicate TidySet(ttl: int, z: ZSet, clock: int) {
    && z.expireAt.Some?
    && forall x | x in z.scores :: z.scores[x] <= clock + ttl && z.scores[x] < z.expireAt.value
  }

  /** A stored member is the encoding of a slot whose last write carries the stored score. */
  ghost predicate Backed(ttl: int, m: Stamps, room: string, x: string, score: int) {
    && UserOf(x).Some?
    && Member(UserOf(x).value, InstOf(x)) == x
    && var s := Slot(room, UserOf(x).value, InstOf(x));
    && s in m && score == m[s] + ttl
  }

  ghost predicate Held(db: Db, s: Slot, score: int) {
    && var scores := Scores(db, RoomKey(s.room));
    && Member(s.user, s.inst) in scores && scores[Member(s.user, s.inst)] == score
  }

  ghost predicate Agrees(ttl: int, db: Db, m: Stamps, clock: int) {
    && Tidy(ttl, db, clock)
    && (forall s | s in m :: m[s] <= clock)
    && (forall room, x | x in Scores(db, RoomKey(room)) :: Backed(ttl, m, room, x, Scores(db, RoomKey(room))[x]))
    && (forall s | s in m && clock <= m[s] + ttl :: Held(db, s, m[s] + ttl))
  }

  /**
   A room's index score is its last write's, and the entry is there while both it and some
   member of the room are live.
   */
  ghost predicate Indexed(ttl: int, db: Db, m: Stamps, l: RoomStamps, clock: int) {
    && (forall room | room in Scores(db, INDEX_KEY) :: room in l && Scores(db, INDEX_KEY)[room] == l[room] + ttl)
    && (forall s | s in m :: s.room in l)
    && (forall s | s in m && clock <= m[s] + ttl && clock <= l[s.room] + ttl :: s.room in Scores(db, INDEX_KEY))
  }

  /** Letting time pass and dropping expired keys loses nothing that is still live. */
  lemma SweepAgrees(ttl: int, db: Db, m: Stamps, clock: int, later: int)
    requires Agrees(ttl, db, m, clock) && clock <= later
    ensures Agrees(ttl, Sweep(db, later), m, later)
  {
    var d := Sweep(db, later);
    forall s | s in m && later <= m[s] + ttl ensures Held(d, s, m[s] + ttl) {
      assert Held(db, s, m[s] + ttl);
      assert TidySet(ttl, db[RoomKey(s.room)], clock);
    }
    forall room, x | x in Scores(d, RoomKey(room))
      ensures Backed(ttl, m, room, x, Scores(d, RoomKey(room))[x])
    {
      assert x in Scores(db, RoomKey(room));
    }
  }

  lemma SweepIndexed(ttl: int, db: Db, m: Stamps, l: RoomStamps, clock: int, later: int)
    requires Agrees(ttl, db, m, clock) && Indexed(ttl, db, m, l, clock) && clock <= later
    ensures Indexed(ttl, Sweep(db, later), m, l, later)
  {
    if INDEX_KEY in db {
      assert TidySet(ttl, db[INDEX_KEY], clock);
    }
  }

  lemma PruneKeyAgrees(ttl: int, db: Db, m: Stamps, clock: int, key: string, now: int)
    requires Agrees(ttl, db, m, clock) && now <= clock
    ensures Agrees(ttl, ZRemBelow(db, key, now), m, clock)
  {
    var d := ZRemBelow(db, key, now);
    forall k | k in d ensures TidySet(ttl, d[k], clock) {
      assert TidySet(ttl, db[k], clock);
    }
    ScoresAfterPrune(db, key, now);
    forall s | s in m && clock <= m[s] + ttl ensures Held(d, s, m[s] + ttl) {
      assert Held(db, s, m[s] + ttl);
    }
    forall room, x | x in Scores(d, RoomKey(room))
      ensures Backed(ttl, m, room, x, Scores(d, RoomKey(room))[x])
    {
      assert x in Scores(db, RoomKey(room));
    }
  }

  lemma ScoresAfterPrune(db: Db, key: string, now: int)
    ensures forall k :: k != key ==> Scores(ZRemBelow(db, key, now), k) == Scores(db, k)
    ensures Scores(ZRemBelow(db, key, now), key)
         == map x | x in Scores(db, key) && Scores(db, key)[x] >= now :: Scores(db, key)[x]
  {
  }

  lemma {:induction false} PruneAgrees(ttl: int, db: Db, m: Stamps, clock: int, keys: seq<string>, now: int)
    requires Agrees(ttl, db, m, clock) && now <= clock
    ensures Agrees(ttl, Prune(db, keys, now), m, clock)
    decreases keys
  {
    if keys != [] {
      PruneKeyAgrees(ttl, db, m, clock, keys[0], now);
      PruneAgrees(ttl, ZRemBelow(db, keys[0], now), m, clock, keys[1..], now);
    }
  }

  lemma {:induction false} PruneIndexed(ttl: int, db: Db, m: Stamps, l: RoomStamps, clock: int, keys: seq<string>, now: int)
    requires Indexed(ttl, db, m, l, clock) && now <= clock
    ensures Indexed(ttl, Prune(db, keys, now), m, l, clock)
    decreases keys
  {
    if keys != [] {
      ScoresAfterPrune(db, keys[0], now);
      PruneIndexed(ttl, ZRemBelow(db, keys[0], now), m, l, clock, keys[1..], now);
    }
  }

  lemma ScoresAfterTouch(ttl: int, db: Db, key: string, members: seq<string>, stamp: int, clock: int)
    requires ttl > 0 && members != []
    ensures var d := Touch(ttl, db, key, members, stamp, clock);
      && key in d && d[key].expireAt == Some(clock + WriteLife(ttl))
      && d[key].scores == Scores(db, key) + (map x | x in members :: stamp + ttl)
      && (forall k | k != key :: (k in d <==> k in db) && (k in d ==> d[k] == db[k]))
  {
    KeysOutliveTtl(ttl);
  }

  lemma ScoresAfterTwoTouches(ttl: int, db: Db, key: string, members: seq<string>, index: string, room: string,
                              stamp: int, clock: int, d: Db)
    requires ttl > 0 && members != [] && key != index
    requires d == Touch(ttl, Touch(ttl, db, key, members, stamp, clock), index, [room], stamp, clock)
    ensures Scores(d, key) == Scores(db, key) + (map x | x in members :: stamp + ttl)
    ensures Scores(d, index) == Scores(db, index)[room := stamp + ttl]
    ensures key in d && d[key].expireAt == Some(clock + WriteLife(ttl))
    ensures index in d && d[index].expireAt == Some(clock + WriteLife(ttl))
    ensures forall k | k != key && k != index :: (k in d <==> k in db) && (k in d ==> d[k] == db[k])
  {
    ScoresAfterTouch(ttl, db, key, members, stamp, clock);
    ScoresAfterTouch(ttl, Touch(ttl, db, key, members, stamp, clock), index, [room], stamp, clock);
  }

  lemma ScoresAfterWrite(ttl: int, db: Db, room: string, members: seq<string>, stamp: int, clock: int)
    requires ttl > 0 && members != []
    ensures var d := Write(ttl, db, room, members, stamp, clock);
      && var d0 := Sweep(db, clock);
      && Scores(d, RoomKey(room)) == Scores(d0, RoomKey(room)) + (map x | x in members :: stamp + ttl)
      && Scores(d, INDEX_KEY) == Scores(d0, INDEX_KEY)[room := stamp + ttl]
      && RoomKey(room) in d && d[RoomKey(room)].expireAt == Some(clock + WriteLife(ttl))
      && INDEX_KEY in d && d[INDEX_KEY].expireAt == Some(clock + WriteLife(ttl))
      && (forall k | k != RoomKey(room) && k != INDEX_KEY ::
           (k in d <==> k in d0) && (k in d ==> d[k] == d0[k]))
  {
    assert RoomKey(room) != INDEX_KEY by {
      RoomKeysDistinct();
    }
    ScoresAfterTwoTouches(ttl, Sweep(db, clock), RoomKey(room), members, INDEX_KEY, room, stamp, clock,
                          Write(ttl, db, room, members, stamp, clock));
  }

  /** The members a refresh writes are exactly those of its users on its instance. */
  lemma MemberWritten(users: seq<Int64>, inst: string, x: string)
    ensures x in Members(users, inst) ==>
              UserOf(x).Some? && UserOf(x).value in users && InstOf(x) == inst && Member(UserOf(x).value, inst) == x
    ensures UserOf(x).Some? && UserOf(x).value in users && Member(UserOf(x).value, inst) == x ==>
              x in Members(users, inst)
  {
    var members := Members(users, inst);
    if x in members {
      var i :| 0 <= i < |users| && x == members[i];
      MemberRoundTrip(users[i], inst);
    }
    if UserOf(x).Some? && UserOf(x).value in users && Member(UserOf(x).value, inst) == x {
      var i :| 0 <= i < |users| && users[i] == UserOf(x).value;
      assert members[i] == x;
    }
  }

  lemma WriteTidy(ttl: int, db: Db, clock: int, room: string, members: seq<string>, stamp: int)
    requires ttl > 0 && members != [] && stamp <= clock
    requires Tidy(ttl, Sweep(db, clock), clock)
    ensures Tidy(ttl, Write(ttl, db, room, members, stamp, clock), clock)
  {
    var d0 := Sweep(db, clock);
    var d := Write(ttl, db, room, members, stamp, clock);
    ScoresAfterWrite(ttl, db, room, members, stamp, clock);
    KeysOutliveTtl(ttl);
    forall k | k in d ensures TidySet(ttl, d[k], clock) {
      assert d[k].scores == Scores(d, k);
      if k in d0 {
        assert TidySet(ttl, d0[k], clock);
      }
    }
  }

  lemma WriteBacked(ttl: int, m: Stamps, room: string, inst: string, users: seq<Int64>, stamp: int,
                    r: string, x: string, score: int)
    requires Backed(ttl, m, r, x, score)
    requires r != room || x !in Members(users, inst)
    ensures Backed(ttl, Record(m, Refresh(room, inst, users, stamp)), r, x, score)
  {
    MemberWritten(users, inst, x);
  }

  lemma WriteBackedNew(ttl: int, m: Stamps, room: string, inst: string, users: seq<Int64>, stamp: int, x: string)
    requires x in Members(users, inst)
    ensures Backed(ttl, Record(m, Refresh(room, inst, users, stamp)), room, x, stamp + ttl)
  {
    MemberWritten(users, inst, x);
  }

  lemma WriteHeld(ttl: int, db: Db, m: Stamps, clock: int,
                  room: string, inst: string, users: seq<Int64>, stamp: int, s: Slot)
    requires ttl > 0 && users != []
    requires var m' := Record(m, Refresh(room, inst, users, stamp)); s in m' && clock <= m'[s] + ttl
    requires s in m && clock <= m[s] + ttl ==> Held(Sweep(db, clock), s, m[s] + ttl)
    ensures Held(Write(ttl, db, room, Members(users, inst), stamp, clock), s,
                 Record(m, Refresh(room, inst, users, stamp))[s] + ttl)
  {
    var x := Member(s.user, s.inst);
    ScoresAfterWrite(ttl, db, room, Members(users, inst), stamp, clock);
    MemberRoundTrip(s.user, s.inst);
    MemberWritten(users, inst, x);
    RoomKeysDistinct();
    if s.room != room {
      assert RoomKey(s.room) != RoomKey(room) && RoomKey(s.room) != INDEX_KEY;
    }
  }

  /** A stored member after a write is backed by the new map of last writes. */
  lemma WriteKeepsBacked(ttl: int, db: Db, m: Stamps, clock: int,
                         room: string, inst: string, users: seq<Int64>, stamp: int, r: string, x: string)
    requires ttl > 0 && users != []
    requires x in Scores(Write(ttl, db, room, Members(users, inst), stamp, clock), RoomKey(r))
    requires x in Scores(Sweep(db, clock), RoomKey(r)) ==>
               Backed(ttl, m, r, x, Scores(Sweep(db, clock), RoomKey(r))[x])
    ensures Backed(ttl, Record(m, Refresh(room, inst, users, stamp)), r, x,
                   Scores(Write(ttl, db, room, Members(users, inst), stamp, clock), RoomKey(r))[x])
  {
    var members := Members(users, inst);
    WriteScore(ttl, db, room, members, stamp, clock, r, x);
    if r == room && x in members {
      WriteBackedNew(ttl, m, room, inst, users, stamp, x);
    } else {
      WriteBacked(ttl, m, room, inst, users, stamp, r, x, Scores(Sweep(db, clock), RoomKey(r))[x]);
    }
  }

  lemma WriteAllBacked(ttl: int, db: Db, m: Stamps, clock: int,
                       room: string, inst: string, users: seq<Int64>, stamp: int, d: Db, m': Stamps)
    requires ttl > 0 && users != []
    requires d == Write(ttl, db, room, Members(users, inst), stamp, clock)
    requires m' == Record(m, Refresh(room, inst, users, stamp))
    requires Agrees(ttl, Sweep(db, clock), m, clock)
    ensures forall r, x | x in Scores(d, RoomKey(r)) :: Backed(ttl, m', r, x, Scores(d, RoomKey(r))[x])
  {
    forall r, x | x in Scores(d, RoomKey(r))
      ensures Backed(ttl, m', r, x, Scores(d, RoomKey(r))[x])
    {
      WriteKeepsBacked(ttl, db, m, clock, room, inst, users, stamp, r, x);
    }
  }

  lemma WriteAllHeld(ttl: int, db: Db, m: Stamps, clock: int,
                     room: string, inst: string, users: seq<Int64>, stamp: int, d: Db, m': Stamps)
    requires ttl > 0 && users != []
    requires d == Write(ttl, db, room, Members(users, inst), stamp, clock)
    requires m' == Record(m, Refresh(room, inst, users, stamp))
    requires Agrees(ttl, Sweep(db, clock), m, clock)
    ensures forall s | s in m' && clock <= m'[s] + ttl :: Held(d, s, m'[s] + ttl)
  {
    forall s | s in m' && clock <= m'[s] + ttl ensures Held(d, s, m'[s] + ttl) {
      WriteHeld(ttl, db, m, clock, room, inst, users, stamp, s);
    }
  }

  lemma WriteAgrees(ttl: int, db: Db, m: Stamps, clock: int,
                    room: string, inst: string, users: seq<Int64>, stamp: int, d: Db, m': Stamps)
    requires ttl > 0 && users != [] && stamp <= clock
    requires d == Write(ttl, db, room, Members(users, inst), stamp, clock)
    requires m' == Record(m, Refresh(room, inst, users, stamp))
    requires Agrees(ttl, Sweep(db, clock), m, clock)
    ensures Agrees(ttl, d, m', clock)
  {
    WriteTidy(ttl, db, clock, room, Members(users, inst), stamp);
    WriteAllBacked(ttl, db, m, clock, room, inst, users, stamp, d, m');
    WriteAllHeld(ttl, db, m, clock, room, inst, users, stamp, d, m');
  }

  lemma WriteScore(ttl: int, db: Db, room: string, members: seq<string>, stamp: int, clock: int, r: string, x: string)
    requires ttl > 0 && members != []
    requires x in Scores(Write(ttl, db, room, members, stamp, clock), RoomKey(r))
    ensures var score := Scores(Write(ttl, db, room, members, stamp, clock), RoomKey(r))[x];
      if r == room && x in members then score == stamp + ttl
      else x in Scores(Sweep(db, clock), RoomKey(r)) && score == Scores(Sweep(db, clock), RoomKey(r))[x]
  {
    ScoresAfterWrite(ttl, db, room, members, stamp, clock);
    RoomKeysDistinct();
    if r != room {
      assert RoomKey(r) != RoomKey(room) && RoomKey(r) != INDEX_KEY;
    }
  }

  lemma OverwrittenIndexed(ttl: int, d0: Db, d: Db, m: Stamps, m': Stamps, l: RoomStamps, clock: int, room: string, stamp: int)
    requires Indexed(ttl, d0, m, l, clock)
    requires Scores(d, INDEX_KEY) == Scores(d0, INDEX_KEY)[room := stamp + ttl]
    requires forall s | s in m' :: s.room == room || (s in m && m'[s] == m[s])
    ensures Indexed(ttl, d, m', l[room := stamp], clock)
  {
  }

  lemma WriteIndexed(ttl: int, db: Db, m: Stamps, l: RoomStamps, clock: int,
                     room: string, inst: string, users: seq<Int64>, stamp: int)
    requires ttl > 0 && users != []
    requires Indexed(ttl, Sweep(db, clock), m, l, clock)
    ensures Indexed(ttl, Write(ttl, db, room, Members(users, inst), stamp, clock),
                    Record(m, Refresh(room, inst, users, stamp)), l[room := stamp], clock)
  {
    ScoresAfterWrite(ttl, db, room, Members(users, inst), stamp, clock);
    OverwrittenIndexed(ttl, Sweep(db, clock), Write(ttl, db, room, Members(users, inst), stamp, clock),
                       m, Record(m, Refresh(room, inst, users, stamp)), l, clock, room, stamp);
  }

  lemma KeysOutliveTtl(ttl: int)
    ensures ttl >= 500 ==> OfflineLife(ttl) > ttl
    ensures 0 <= ttl < 500 ==> OfflineLife(ttl) == 0
    ensures ttl > 0 ==> WriteLife(ttl) > ttl
    ensures OfflineLife(ttl) % 1000 == 0 && 2 * ttl - 1000 < OfflineLife(ttl) <= 2 * ttl
    ensures WriteLife(ttl) == if 0 < ttl < 500 then 1000 else OfflineLife(ttl)
  {
  }

  lemma ScoresAfterZRem(db: Db, key: string, x: string)
    ensures Scores(ZRem(db, key, x), key) == Scores(db, key) - {x}
    ensures forall k | k != key :: Scores(ZRem(db, key, x), k) == Scores(db, k)
    ensures forall k | k in ZRem(db, key, x) :: k in db && ZRem(db, key, x)[k].expireAt == db[k].expireAt
  {
  }

  /** With a positive life, EXPIRE touches no score. */
  lemma ScoresAfterExpire(db: Db, key: string, life: int, clock: int)
    requires life > 0
    ensures forall k :: Scores(Expire(db, key, life, clock), k) == Scores(db, k)
    ensures forall k | k in Expire(db, key, life, clock) ::
              && k in db
              && (Expire(db, key, life, clock)[k].expireAt == db[k].expireAt
                  || Expire(db, key, life, clock)[k].expireAt == Some(clock + life))
  {
  }

  lemma ScoresAfterRemove(ttl: int, db: Db, room: string, x: string, clock: int)
    requires ttl >= 500
    ensures var d := Remove(ttl, db, room, x, clock);
      && var d0 := Sweep(db, clock);
      && Scores(d, RoomKey(room)) == Scores(d0, RoomKey(room)) - {x}
      && Scores(d, INDEX_KEY) == (if Scores(d, RoomKey(room)) == map[] then Scores(d0, INDEX_KEY) - {room}
                                  else Scores(d0, INDEX_KEY))
      && (forall k | k != RoomKey(room) && k != INDEX_KEY :: Scores(d, k) == Scores(d0, k))
      && (forall k | k in d :: k in d0 && (d[k].expireAt == d0[k].expireAt
            || d[k].expireAt == Some(clock + OfflineLife(ttl))))
  {
    var d0 := Sweep(db, clock);
    var d1 := ZRem(d0, RoomKey(room), x);
    assert RoomKey(room) != INDEX_KEY by {
      RoomKeysDistinct();
    }
    KeysOutliveTtl(ttl);
    ScoresAfterZRem(d0, RoomKey(room), x);
    ScoresAfterZRem(d1, INDEX_KEY, room);
    ScoresAfterExpire(d1, RoomKey(room), OfflineLife(ttl), clock);
  }

  lemma ZRemTidy(ttl: int, db: Db, clock: int, key: string, x: string)
    requires Tidy(ttl, db, clock)
    ensures Tidy(ttl, ZRem(db, key, x), clock)
  {
    var d := ZRem(db, key, x);
    forall k | k in d ensures TidySet(ttl, d[k], clock) {
      assert TidySet(ttl, db[k], clock);
    }
  }

  lemma ExpireTidy(ttl: int, db: Db, clock: int, key: string, life: int)
    requires Tidy(ttl, db, clock) && life > ttl
    ensures Tidy(ttl, Expire(db, key, life, clock), clock)
  {
    var d := Expire(db, key, life, clock);
    forall k | k in d ensures TidySet(ttl, d[k], clock) {
      assert TidySet(ttl, db[k], clock);
    }
  }

  lemma RemoveTidy(ttl: int, db: Db, clock: int, room: string, x: string)
    requires ttl >= 500 && Tidy(ttl, Sweep(db, clock), clock)
    ensures Tidy(ttl, Remove(ttl, db, room, x, clock), clock)
  {
    var d := ZRem(Sweep(db, clock), RoomKey(room), x);
    ZRemTidy(ttl, Sweep(db, clock), clock, RoomKey(room), x);
    ZRemTidy(ttl, d, clock, INDEX_KEY, room);
    KeysOutliveTtl(ttl);
    ExpireTidy(ttl, d, clock, RoomKey(room), OfflineLife(ttl));
  }

  lemma RemoveHeld(ttl: int, db: Db, room: string, user: Int64, inst: string, clock: int, s: Slot, score: int)
    requires ttl >= 500 && s != Slot(room, user, inst)
    requires Held(Sweep(db, clock), s, score)
    ensures Held(Remove(ttl, db, room, Member(user, inst), clock), s, score)
  {
    ScoresAfterRemove(ttl, db, room, Member(user, inst), clock);
    MemberRoundTrip(user, inst);
    MemberRoundTrip(s.user, s.inst);
    RoomKeysDistinct();
    if s.room != room {
      assert RoomKey(s.room) != RoomKey(room) && RoomKey(s.room) != INDEX_KEY;
    }
  }

  lemma RemoveScore(ttl: int, db: Db, room: string, x: string, clock: int, r: string, y: string)
    requires ttl >= 500 && y in Scores(Remove(ttl, db, room, x, clock), RoomKey(r))
    ensures y in Scores(Sweep(db, clock), RoomKey(r)) && (r != room || y != x)
    ensures Scores(Remove(ttl, db, room, x, clock), RoomKey(r))[y] == Scores(Sweep(db, clock), RoomKey(r))[y]
  {
    ScoresAfterRemove(ttl, db, room, x, clock);
    RoomKeysDistinct();
    if r != room {
      assert RoomKey(r) != RoomKey(room) && RoomKey(r) != INDEX_KEY;
    }
  }

  lemma RemoveAgrees(ttl: int, db: Db, m: Stamps, clock: int, room: string, user: Int64, inst: string)
    requires ttl >= 500
    requires Agrees(ttl, Sweep(db, clock), m, clock)
    ensures Agrees(ttl, Remove(ttl, db, room, Member(user, inst), clock),
                   Record(m, Offline(room, user, inst)), clock)
  {
    var x := Member(user, inst);
    var d0 := Sweep(db, clock);
    var d := Remove(ttl, db, room, x, clock);
    var m' := Record(m, Offline(room, user, inst));
    RemoveTidy(ttl, db, clock, room, x);
    forall r, y | y in Scores(d, RoomKey(r))
      ensures Backed(ttl, m', r, y, Scores(d, RoomKey(r))[y])
    {
      RemoveScore(ttl, db, room, x, clock, r, y);
      assert Backed(ttl, m, r, y, Scores(d0, RoomKey(r))[y]);
    }
    forall s | s in m' && clock <= m'[s] + ttl ensures Held(d, s, m'[s] + ttl) {
      assert Held(d0, s, m[s] + ttl);
      RemoveHeld(ttl, db, room, user, inst, clock, s, m[s] + ttl);
    }
  }

  /** The script drops a room from the index only when no live member of it remains. */
  lemma RemoveIndexed(ttl: int, db: Db, m: Stamps, l: RoomStamps, clock: int, room: string, user: Int64, inst: string)
    requires ttl >= 500
    requires Agrees(ttl, Sweep(db, clock), m, clock) && Indexed(ttl, Sweep(db, clock), m, l, clock)
    ensures Indexed(ttl, Remove(ttl, db, room, Member(user, inst), clock),
                    Record(m, Offline(room, user, inst)), l, clock)
  {
    var x := Member(user, inst);
    var d := Remove(ttl, db, room, x, clock);
    var m' := Record(m, Offline(room, user, inst));
    ScoresAfterRemove(ttl, db, room, x, clock);
    forall s | s in m' && clock <= m'[s] + ttl && clock <= l[s.room] + ttl
      ensures s.room in Scores(d, INDEX_KEY)
    {
      assert Held(Sweep(db, clock), s, m[s] + ttl);
      RemoveHeld(ttl, db, room, user, inst, clock, s, m[s] + ttl);
      RemoveKeepsIndex(ttl, db, room, x, clock, s.room, Member(s.user, s.inst));
    }
  }

  lemma RemoveKeepsIndex(ttl: int, db: Db, room: string, x: string, clock: int, r: string, y: string)
    requires ttl >= 500 && y in Scores(Remove(ttl, db, room, x, clock), RoomKey(r))
    requires r in Scores(Sweep(db, clock), INDEX_KEY)
    ensures r in Scores(Remove(ttl, db, room, x, clock), INDEX_KEY)
    ensures Scores(Remove(ttl, db, room, x, clock), INDEX_KEY)[r] == Scores(Sweep(db, clock), INDEX_KEY)[r]
  {
    ScoresAfterRemove(ttl, db, room, x, clock);
  }

  lemma TimePasses(ttl: int, db: Db, m: Stamps, clock: int, later: int)
    requires Agrees(ttl, db, m, clock) && clock <= later
    ensures Agrees(ttl, db, m, later)
  {
    forall k | k in db ensures TidySet(ttl, db[k], later) {
      assert TidySet(ttl, db[k], clock);
    }
  }

  /** One transaction keeps the agreement. */
  lemma ApplyAgrees(ttl: int, db: Db, m: Stamps, clock: int, e: Event)
    requires ttl >= 500 && Agrees(ttl, db, m, clock)
    requires clock <= e.clock && Causal(e)
    ensures Agrees(ttl, Apply(ttl, db, e), Record(m, e.op), e.clock)
  {
    SweepAgrees(ttl, db, m, clock, e.clock);
    match e.op
    case Refresh(room, inst, users, stamp) =>
      if users == [] {
        TimePasses(ttl, db, m, clock, e.clock);
        assert Record(m, e.op) == m;
      } else {
        WriteAgrees(ttl, db, m, e.clock, room, inst, users, stamp, Apply(ttl, db, e), Record(m, e.op));
      }
    case Offline(room, user, inst) => RemoveAgrees(ttl, db, m, e.clock, room, user, inst);
    case ReadRooms(rooms, now) => PruneAgrees(ttl, Sweep(db, e.clock), m, e.clock, RoomKeys(rooms), now);
    case ReadIndex(now) => PruneAgrees(ttl, Sweep(db, e.clock), m, e.clock, [INDEX_KEY], now);
  }

  /** One transaction keeps the index in step with the last write of each room. */
  lemma ApplyIndexed(ttl: int, db: Db, m: Stamps, l: RoomStamps, clock: int, e: Event)
    requires ttl >= 500 && Agrees(ttl, db, m, clock) && Indexed(ttl, db, m, l, clock)
    requires clock <= e.clock && Causal(e)
    ensures Indexed(ttl, Apply(ttl, db, e), Record(m, e.op), RecordRoom(l, e.op), e.clock)
  {
    SweepAgrees(ttl, db, m, clock, e.clock);
    SweepIndexed(ttl, db, m, l, clock, e.clock);
    match e.op
    case Refresh(room, inst, users, stamp) =>
      if users == [] {
        assert Record(m, e.op) == m;
      } else {
        WriteIndexed(ttl, db, m, l, e.clock, room, inst, users, stamp);
      }
    case Offline(room, user, inst) => RemoveIndexed(ttl, db, m, l, e.clock, room, user, inst);
    case ReadRooms(rooms, now) => PruneIndexed(ttl, Sweep(db, e.clock), m, l, e.clock, RoomKeys(rooms), now);
    case ReadIndex(now) => PruneIndexed(ttl, Sweep(db, e.clock), m, l, e.clock, [INDEX_KEY], now);
  }

  /** Over every run, the store agrees with the map of last writes. */
  lemma {:induction false} RunAgrees(ttl: int, h: seq<Event>, clock: int)
    requires ttl >= 500 && ValidHistory(h) && NotBefore(h, clock)
    ensures Agrees(ttl, Run(ttl, h), LastWrites(h), clock)
  {
    if h != [] {
      var e := h[|h| - 1];
      var g := h[..|h| - 1];
      RunAgrees(ttl, g, e.clock);
      ApplyAgrees(ttl, Run(ttl, g), LastWrites(g), e.clock, e);
      TimePasses(ttl, Run(ttl, h), LastWrites(h), e.clock, clock);
    }
  }

  /** Over every run, the index is in step with the last write of each room. */
  lemma {:induction false} RunIndexed(ttl: int, h: seq<Event>, clock: int)
    requires ttl >= 500 && ValidHistory(h) && NotBefore(h, clock)
    ensures Indexed(ttl, Run(ttl, h), LastWrites(h), LastRoomWrites(h), clock)
  {
    if h != [] {
      var e := h[|h| - 1];
      var g := h[..|h| - 1];
      RunIndexed(ttl, g, e.clock);
      RunAgrees(ttl, g, e.clock);
      ApplyIndexed(ttl, Run(ttl, g), LastWrites(g), LastRoomWrites(g), e.clock, e);
    }
  }
}
