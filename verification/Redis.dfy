/**
 The Redis sorted-set commands the presence repository issues. A key holds a
 non-empty set of scored members and an optional expiry instant; a command never
 sees a key whose instant has been reached.
 */
module Redis {
  import opened Decimal

  datatype ZSet = ZSet(scores: map<string, int>, expireAt: Option<int>)

  type Db = map<string, ZSet>

  predicate Expired(z: ZSet, clock: int) {
    z.expireAt.Some? && z.expireAt.value <= clock
  }

  /** Key-level expiry, as every command executed at clock observes it. */
  function Sweep(db: Db, clock: int): Db {
    map k | k in db && !Expired(db[k], clock) :: db[k]
  }

  function Scores(db: Db, key: string): map<string, int> {
    if key in db then db[key].scores else map[]
  }

  /** ZADD of several members with one score. */
  function ZAdd(db: Db, key: string, members: seq<string>, score: int): Db {
    var z := if key in db then db[key] else ZSet(map[], None);
    if members == [] then db
    else db[key := z.(scores := z.scores + (map x | x in members :: score))]
  }

  /** EXPIRE, with the remaining life in milliseconds; one that is not positive deletes the key. */
  function Expire(db: Db, key: string, life: int, clock: int): Db {
    if key !in db then db
    else if life <= 0 then db - {key}
    else db[key := db[key].(expireAt := Some(clock + life))]
  }

  /** Redis deletes a sorted set that a removal leaves empty. */
  function Keep(db: Db, key: string, scores: map<string, int>): Db
    requires key in db
  {
    if scores == map[] then db - {key} else db[key := db[key].(scores := scores)]
  }

  function ZRem(db: Db, key: string, x: string): Db {
    if key in db then Keep(db, key, db[key].scores - {x}) else db
  }

  function ZCard(db: Db, key: string): nat {
    |Scores(db, key)|
  }

  /** ZREMRANGEBYSCORE key -inf (now */
  function ZRemBelow(db: Db, key: string, now: int): Db {
    if key in db then
      Keep(db, key, map x | x in db[key].scores && db[key].scores[x] >= now :: db[key].scores[x])
    else db
  }

  /** The members ZRANGEBYSCORE key now +inf returns. */
  function InRange(db: Db, key: string, now: int): set<string> {
    set x | x in Scores(db, key) && Scores(db, key)[x] >= now
  }
}
