/**
 What the edge does at each point, said outright: what fetch keeps of a reply, what a hit, a leader and
 a waiter are told, what goes into the cache. Statements about runs, whatever the origin replies.
 */
module EdgeAnswers {
  import opened Decimal
  import EC = EdgeCache
  import opened SingleFlight

  type Entry = EC.Entry

  // ----- what fetch decides

  predicate OccursAt(s: string, t: string, i: int) {
    0 <= i <= |s| - |t| && s[i..i + |t|] == t
  }

  lemma {:induction false} ContainedOccurs(s: string, t: string) returns (i: nat)
    requires Contains(s, t)
    ensures OccursAt(s, t, i)
  {
    if t <= s {
      i := 0;
    } else {
      var k := ContainedOccurs(s[1..], t);
      i := k + 1;
      assert s[i..i + |t|] == s[1..][k..k + |t|];
    }
  }

  lemma {:induction false} OccurrenceContained(s: string, t: string, i: nat)
    requires OccursAt(s, t, i)
    ensures Contains(s, t)
  {
    if i > 0 {
      assert s[1..][i - 1..i - 1 + |t|] == s[i..i + |t|];
      OccurrenceContained(s[1..], t, i - 1);
    } else {
      assert s[..|t|] == t;
    }
  }

  lemma ContainsIsSubstring(s: string, t: string)
    ensures Contains(s, t) <==> exists i: nat :: OccursAt(s, t, i)
  {
    if Contains(s, t) {
      var i := ContainedOccurs(s, t);
    }
    if i: nat :| OccursAt(s, t, i) {
      OccurrenceContained(s, t, i);
    }
  }

  /**
   fetch keeps an entry of exactly the replies that are 200, tagged, marked immutable, announced and found
   within the cap and read to their end; the entry is the reply's body, type and tag.
   */
  lemma FetchKeepsIff(reply: Reply, maxEntry: int)
    ensures Fetch(reply, maxEntry).Fetched? <==>
      && reply.Reply? && reply.status == 200 && reply.etag != "" && Contains(reply.cacheControl, "immutable")
      && reply.contentLength <= maxEntry && !reply.bodyFails && |reply.body| <= maxEntry
    ensures Fetch(reply, maxEntry).Fetched? ==>
      Fetch(reply, maxEntry).entry == EC.Entry(reply.body, reply.contentType, reply.etag)
  {
  }

  /** It fails on a transport error, or when the body of a reply to keep cannot be read. */
  lemma FetchFailsIff(reply: Reply, maxEntry: int)
    ensures Fetch(reply, maxEntry).Failed? <==>
      || reply.TransportError?
      || (reply.status == 200 && reply.etag != "" && Contains(reply.cacheControl, "immutable")
          && reply.contentLength <= maxEntry && reply.bodyFails)
    ensures Fetch(reply, maxEntry).Uncached? ==> reply.Reply? && Fetch(reply, maxEntry).status == reply.status
  {
  }

  // ----- what a request is told

  /** The response made from an entry: 304 exactly when the client's non-empty tag is the entry's. */
  predicate FromEntry(entry: Entry, ifNoneMatch: string, response: Response) {
    response == if ifNoneMatch != "" && ifNoneMatch == entry.etag then NotModified(entry.etag) else Full(entry)
  }

  predicate ToldOf(result: Result, ifNoneMatch: string, response: Response) {
    match result
    case Failed => response == BadGateway
    case Fetched(entry) => FromEntry(entry, ifNoneMatch, response)
    case Uncached(status) =>
      if status == 200 then response == BadGateway || response.Streamed? else response == StatusOnly(status)
  }

  /** Over every run, the leader and every waiter of a flight are told what its one result calls for. */
  lemma FlightAnswers(maxBytes: int, maxEntry: int, es: seq<Event>, id: RequestId)
    ensures var s := Run(maxBytes, maxEntry, es);
      id in s.requests && s.requests[id].flight.Some? && s.requests[id].phase.Answered? ==>
        var f := s.requests[id].flight.value;
        && f in s.flights && s.flights[f].hash == s.requests[id].hash && s.flights[f].result.Some?
        && ToldOf(s.flights[f].result.value, s.requests[id].ifNoneMatch, s.requests[id].phase.response)
  {
    RunInv(maxBytes, maxEntry, es);
    var s := Run(maxBytes, maxEntry, es);
    if id in s.requests && s.requests[id].flight.Some? && s.requests[id].phase.Answered? {
      ToldAsShared(Run(maxBytes, maxEntry, es), id);
    }
  }

  lemma ToldAsShared(s: State, id: RequestId)
    requires RequestOk(s, id) && s.requests[id].flight.Some? && s.requests[id].phase.Answered?
    ensures var f := s.requests[id].flight.value;
      f in s.flights && s.flights[f].result.Some?
      && ToldOf(s.flights[f].result.value, s.requests[id].ifNoneMatch, s.requests[id].phase.response)
  {
  }

  lemma RunMore(maxBytes: int, maxEntry: int, es: seq<Event>, e: Event)
    requires Enabled(Run(maxBytes, maxEntry, es), e)
    ensures Run(maxBytes, maxEntry, es + [e]) == Apply(Run(maxBytes, maxEntry, es), e)
  {
    assert (es + [e])[..|es|] == es;
  }

  predicate Cached(s: State, hash: string) {
    exists i :: 0 <= i < |s.cache| && s.cache[i].key == hash
  }

  /** A hit is answered from the cached entry, which becomes the most recent; a miss goes on to the origin. */
  lemma LookUpDoes(maxBytes: int, maxEntry: int, es: seq<Event>, id: RequestId)
    requires Enabled(Run(maxBytes, maxEntry, es), LookUp(id))
    ensures var s, u := Run(maxBytes, maxEntry, es), Run(maxBytes, maxEntry, es + [LookUp(id)]);
      id in s.requests && id in u.requests
      && var r := s.requests[id];
      if Cached(s, r.hash) then
        exists x :: x in s.cache && x.key == r.hash && u.cache != [] && u.cache[0] == x
          && u.requests[id].phase.Answered? && FromEntry(x.entry, r.ifNoneMatch, u.requests[id].phase.response)
      else u.cache == s.cache && u.requests[id] == r.(phase := Missed)
  {
    var s := Run(maxBytes, maxEntry, es);
    RunMore(maxBytes, maxEntry, es, LookUp(id));
    var hash := s.requests[id].hash;
    if Cached(s, hash) {
      FindIn(s.cache, hash);
      var x := EC.Item(hash, EC.Find(s.cache, hash));
      assert x in s.cache;
    }
  }

  /** A miss waits for the fetch of its hash that is under way, and starts one only if there is none. */
  lemma JoinDoes(maxBytes: int, maxEntry: int, es: seq<Event>, id: RequestId, f: FlightId)
    requires Enabled(Run(maxBytes, maxEntry, es), Join(id, f))
    ensures var s, u := Run(maxBytes, maxEntry, es), Run(maxBytes, maxEntry, es + [Join(id, f)]);
      id in s.requests && id in u.requests
      && (u.requests[id].phase.Waiting? <==>
           exists a :: a in s.requests && s.requests[a].hash == s.requests[id].hash && Unreleased(s.requests[a].phase))
      && (!u.requests[id].phase.Waiting? ==> u.requests[id].phase.Leading? && u.requests[id].flight == Some(f))
      && (u.requests[id].phase.Waiting? ==>
           forall a :: a in s.requests && s.requests[a].hash == s.requests[id].hash && Unreleased(s.requests[a].phase) ==>
             u.requests[id].flight == s.requests[a].flight)
  {
    var s := Run(maxBytes, maxEntry, es);
    RunInv(maxBytes, maxEntry, es);
    RunMore(maxBytes, maxEntry, es, Join(id, f));
    var hash := s.requests[id].hash;
    assert hash in s.inflight ==> TableOk(s, hash);
    forall a | a in s.requests && s.requests[a].hash == hash && Unreleased(s.requests[a].phase)
      ensures hash in s.inflight && Some(s.inflight[hash]) == s.requests[a].flight
    {
      assert RequestOk(s, a);
    }
    if hash in s.inflight {
      var a := s.flights[s.inflight[hash]].leader;
      assert FlightOk(s, s.inflight[hash]);
      assert a in s.requests && s.requests[a].hash == hash && Unreleased(s.requests[a].phase);
    }
  }

  /** The leader's fetch gives its flight the result that fetch makes of the reply. */
  lemma FetchDoes(maxBytes: int, maxEntry: int, es: seq<Event>, id: RequestId, hash: string, reply: Reply)
    requires Enabled(Run(maxBytes, maxEntry, es), FetchDone(id, hash, reply))
    ensures var s, u := Run(maxBytes, maxEntry, es), Run(maxBytes, maxEntry, es + [FetchDone(id, hash, reply)]);
      id in s.requests && s.requests[id].flight.Some?
      && var f := s.requests[id].flight.value;
      f in u.flights && u.flights[f].result == Some(Fetch(reply, maxEntry)) && u.cache == s.cache
  {
    RunMore(maxBytes, maxEntry, es, FetchDone(id, hash, reply));
    KeepsCaps(maxBytes, maxEntry, es);
  }

  lemma StepKeepsCaps(s: State, e: Event)
    requires Enabled(s, e)
    ensures Apply(s, e).maxBytes == s.maxBytes && Apply(s, e).maxEntry == s.maxEntry
  {
  }

  lemma {:induction false} KeepsCaps(maxBytes: int, maxEntry: int, es: seq<Event>)
    ensures Run(maxBytes, maxEntry, es).maxBytes == maxBytes && Run(maxBytes, maxEntry, es).maxEntry == maxEntry
  {
    if es != [] {
      KeepsCaps(maxBytes, maxEntry, es[..|es| - 1]);
      var s := Run(maxBytes, maxEntry, es[..|es| - 1]);
      if Enabled(s, es[|es| - 1]) {
        StepKeepsCaps(s, es[|es| - 1]);
      }
    }
  }

  /** What was fetched and fits is the most recent entry of the cache before any waiter is released. */
  lemma StoreDoes(maxBytes: int, maxEntry: int, es: seq<Event>, id: RequestId)
    requires Enabled(Run(maxBytes, maxEntry, es), Store(id))
    ensures var s, u := Run(maxBytes, maxEntry, es), Run(maxBytes, maxEntry, es + [Store(id)]);
      id in s.requests && s.requests[id].flight.Some? && s.requests[id].flight.value in s.flights
      && var result := s.flights[s.requests[id].flight.value].result;
      && result.Some?
      && (if result.value.Fetched? && |result.value.entry.body| <= maxEntry && |result.value.entry.body| <= maxBytes
          then u.cache != [] && u.cache[0] == EC.Item(s.requests[id].hash, result.value.entry)
          else u.cache == s.cache)
      && u.flights == s.flights && (forall f :: f in u.flights && u.flights[f].closed ==> f in s.flights && s.flights[f].closed)
  {
    RunMore(maxBytes, maxEntry, es, Store(id));
    KeepsCaps(maxBytes, maxEntry, es);
  }

  /** Only closing a flight wakes its waiters, and by then it is out of the in-flight table. */
  lemma CloseDoes(maxBytes: int, maxEntry: int, es: seq<Event>, id: RequestId)
    requires Enabled(Run(maxBytes, maxEntry, es), Close(id))
    ensures var s, u := Run(maxBytes, maxEntry, es), Run(maxBytes, maxEntry, es + [Close(id)]);
      id in s.requests && s.requests[id].flight.Some? && s.requests[id].flight.value in u.flights
      && u.flights[s.requests[id].flight.value].closed
      && (s.requests[id].hash in s.inflight ==> s.inflight[s.requests[id].hash] != s.requests[id].flight.value)
  {
    var s := Run(maxBytes, maxEntry, es);
    RunInv(maxBytes, maxEntry, es);
    RunMore(maxBytes, maxEntry, es, Close(id));
    assert s.requests[id].hash in s.inflight ==> TableOk(s, s.requests[id].hash);
    assert RequestOk(s, id);
  }

  /** A request that bypasses the cache begins a fetch of its own and is streamed what it brings, or told 502. */
  lemma PassDoes(maxBytes: int, maxEntry: int, es: seq<Event>, id: RequestId, reply: Reply)
    requires Enabled(Run(maxBytes, maxEntry, es), PassStart(id))
    ensures var u := Run(maxBytes, maxEntry, es + [PassStart(id)]);
      && id in u.requests && u.requests[id].phase.Streaming? && u.requests[id].own
      && u.cache == Run(maxBytes, maxEntry, es).cache && Enabled(u, PassEnd(id, reply))
    ensures var v := Run(maxBytes, maxEntry, es + [PassStart(id)] + [PassEnd(id, reply)]);
      && id in v.requests && v.cache == Run(maxBytes, maxEntry, es).cache
      && v.requests[id].phase == Answered(if reply.TransportError? then BadGateway else Streamed(reply))
  {
    RunMore(maxBytes, maxEntry, es, PassStart(id));
    RunMore(maxBytes, maxEntry, es + [PassStart(id)], PassEnd(id, reply));
  }
}
