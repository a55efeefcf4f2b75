/**
 The presence store: one sorted set per room, an index of rooms, logical expiry by
 score and key-level EXPIRE. Every repository call is one or two atomic
 transactions; a run is a history of transactions. The specification is a plain
 map from (room, user, instance) to the stamp of its last write.

 Times are epoch milliseconds. `stamp` and `now` are read by the service before
 the transaction commits at `clock`, so they never exceed it.
 */
module Presence {
  import opened Decimal
  import opened Redis

  const ROOM_PREFIX := "presence:room:"
  const INDEX_KEY := "presence:rooms"

  function RoomKey(room: string): string {
    ROOM_PREFIX + room
  }

  function Member(user: Int64, inst: string): string {
    FormatInt(user) + [':'] + inst
  }

  /** The user id a member is read back as; the part before the first colon must be a number. */
  function UserOf(x: string): Option<Int64> {
    ParseInt(CutBefore(x, ':'))
  }

  /** What EXPIRE is given by the offline script: twice the TTL in whole seconds. */
  function OfflineLife(ttl: int): int {
    2 * ttl / 1000 * 1000
  }

  /** What go-redis gives EXPIRE for twice the TTL: whole seconds too, but at least one if positive. */
  function WriteLife(ttl: int): int {
    if 0 < 2 * ttl < 1000 then 1000 else 2 * ttl / 1000 * 1000
  }

  // ----- transactions

  /** ZADD and EXPIRE of one key; with the index key this is touchRoomIndex. */
  function Touch(ttl: int, db: Db, key: string, members: seq<string>, stamp: int, clock: int): Db {
    Expire(ZAdd(db, key, members, stamp + ttl), key, WriteLife(ttl), clock)
  }

  /** SetOnline and Refresh: stamp the members, the room key and the index. */
  function Write(ttl: int, db: Db, room: string, members: seq<string>, stamp: int, clock: int): Db {
    Touch(ttl, Touch(ttl, Sweep(db, clock), RoomKey(room), members, stamp, clock), INDEX_KEY, [room], stamp, clock)
  }

  /** The offline script. */
  function Remove(ttl: int, db: Db, room: string, x: string, clock: int): Db {
    var d0 := Sweep(db, clock);
    var d1 := ZRem(d0, RoomKey(room), x);
    if ZCard(d1, RoomKey(room)) == 0 then ZRem(d1, INDEX_KEY, room)
    else Expire(d1, RoomKey(room), OfflineLife(ttl), clock)
  }

  /** The pruning half of a read; `keys` are pruned in one transaction. */
  function Prune(db: Db, keys: seq<string>, now: int): Db {
    if keys == [] then db else Prune(ZRemBelow(db, keys[0], now), keys[1..], now)
  }

  function Members(users: seq<Int64>, inst: string): seq<string> {
    seq(|users|, i requires 0 <= i < |users| => Member(users[i], inst))
  }

  function RoomKeys(rooms: seq<string>): seq<string> {
    seq(|rooms|, i requires 0 <= i < |rooms| => RoomKey(rooms[i]))
  }

  datatype Op =
    | Refresh(room: string, inst: string, users: seq<Int64>, stamp: int)
    | Offline(room: string, user: Int64, inst: string)
    | ReadRooms(rooms: seq<string>, now: int)
    | ReadIndex(now: int)

  /** SetOnline is a refresh of one user. */
  function Online(room: string, user: Int64, inst: string, stamp: int): Op {
    Refresh(room, inst, [user], stamp)
  }

  datatype Event = Event(clock: int, op: Op)

  function Apply(ttl: int, db: Db, e: Event): Db {
    match e.op
    case Refresh(room, inst, users, stamp) =>
      if users == [] then db else Write(ttl, db, room, Members(users, inst), stamp, e.clock)
    case Offline(room, user, inst) => Remove(ttl, db, room, Member(user, inst), e.clock)
    case ReadRooms(rooms, now) => Prune(Sweep(db, e.clock), RoomKeys(rooms), now)
    case ReadIndex(now) => Prune(Sweep(db, e.clock), [INDEX_KEY], now)
  }

  function Run(ttl: int, h: seq<Event>): Db {
    if h == [] then map[] else Apply(ttl, Run(ttl, h[..|h| - 1]), h[|h| - 1])
  }

  // ----- specification: a plain map of last writes

  datatype Slot = Slot(room: string, user: Int64, inst: string)

  type Stamps = map<Slot, int>

  function Record(m: Stamps, op: Op): Stamps {
    match op
    case Refresh(room, inst, users, stamp) => m + (map u | u in users :: Slot(room, u, inst) := stamp)
    case Offline(room, user, inst) => m - {Slot(room, user, inst)}
    case ReadRooms(_, _) => m
    case ReadIndex(_) => m
  }

  function LastWrites(h: seq<Event>): Stamps {
    if h == [] then map[] else Record(LastWrites(h[..|h| - 1]), h[|h| - 1].op)
  }

  /** The stamp each room was last written with, in commit order: what the index should hold. */
  type RoomStamps = map<string, int>

  function RecordRoom(l: RoomStamps, op: Op): RoomStamps {
    if op.Refresh? && op.users != [] then l[op.room := op.stamp] else l
  }

  function LastRoomWrites(h: seq<Event>): RoomStamps {
    if h == [] then map[] else RecordRoom(LastRoomWrites(h[..|h| - 1]), h[|h| - 1].op)
  }

  /** The users some instance last reported online in the room, at most a TTL before now. */
  function LiveUsers(ttl: int, m: Stamps, room: string, now: int): set<Int64> {
    set s | s in m && s.room == room && now <= m[s] + ttl :: s.user
  }

  function LiveRooms(ttl: int, m: Stamps, now: int): set<string> {
    set s | s in m && now <= m[s] + ttl :: s.room
  }

  predicate Causal(e: Event) {
    match e.op
    case Refresh(_, _, _, stamp) => stamp <= e.clock
    case Offline(_, _, _) => true
    case ReadRooms(_, now) => now <= e.clock
    case ReadIndex(now) => now <= e.clock
  }

  /** Commits happen under a non-decreasing clock; stamps and read times precede their commit. */
  ghost predicate ValidHistory(h: seq<Event>) {
    && (forall i :: 0 <= i < |h| ==> Causal(h[i]))
    && (forall i, j :: 0 <= i < j < |h| ==> h[i].clock <= h[j].clock)
  }

  ghost predicate NotBefore(h: seq<Event>, clock: int) {
    h != [] ==> h[|h| - 1].clock <= clock
  }
}
