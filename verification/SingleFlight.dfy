/**
 The edge handler: serve from the cache, or coalesce concurrent misses of one hash onto a
 single origin fetch. Every lock-protected section or channel operation is one atomic step
 of one request; requests interleave freely. The origin is an oracle for replies.
 */
module SingleFlight {
  import opened Decimal
  import opened EdgeCache

  const STATUS_OK: int := 200

  // ----- pure decisions

  datatype Reply =
    | TransportError
    | Reply(status: int, etag: string, cacheControl: string, contentLength: int, contentType: string,
            body: seq<bv8>, bodyFails: bool)

  /** strings.Contains */
  predicate Contains(s: string, t: string) {
    t <= s || (s != [] && Contains(s[1..], t))
  }

  predicate Cacheable(reply: Reply, maxEntry: int)
    requires reply.Reply?
  {
    reply.etag != "" && Contains(reply.cacheControl, "immutable") && reply.contentLength <= maxEntry
  }

  /** What a fetch yields: an error, an entry to keep, or only a status. */
  datatype Result = Failed | Fetched(entry: Entry) | Uncached(status: int)

  function Fetch(reply: Reply, maxEntry: int): Result {
    if reply.TransportError? then Failed
    else if reply.status != STATUS_OK then Uncached(reply.status)
    else if !Cacheable(reply, maxEntry) then Uncached(STATUS_OK)
    else if reply.bodyFails then Failed
    else if |reply.body| > maxEntry then Uncached(STATUS_OK)
    else Fetched(Entry(reply.body, reply.contentType, reply.etag))
  }

  datatype Response =
    | Full(entry: Entry)
    | NotModified(etag: string)
    | BadGateway
    | StatusOnly(status: int)
    | Streamed(reply: Reply)

  /** A condition is met only by a non-empty tag equal to the entry's. */
  function Answer(entry: Entry, ifNoneMatch: string): Response {
    if ifNoneMatch != "" && ifNoneMatch == entry.etag then NotModified(entry.etag) else Full(entry)
  }

  // ----- the protocol

  type RequestId = nat
  type FlightId = nat

  datatype Phase =
    | Start
    | Missed
    | Leading        // the origin fetch is running
    | HasResult      // fetched, not yet in the cache
    | Stored         // in the cache, still in the in-flight table
    | Released       // out of the table, waiters not yet released
    | Waiting
    | Bypass         // to be streamed from the origin
    | Streaming      // an origin fetch of the request's own is running
    | Answered(response: Response)

  /** own: whether the request has begun an origin fetch of its own, outside any flight. */
  datatype Request = Request(hash: string, ifNoneMatch: string, flight: Option<FlightId>, phase: Phase, own: bool)

  datatype Flight = Flight(hash: string, leader: RequestId, result: Option<Result>, closed: bool)

  datatype State = State(
    maxBytes: int,
    maxEntry: int,
    cache: Recency,
    inflight: map<string, FlightId>,
    flights: map<FlightId, Flight>,
    requests: map<RequestId, Request>)

  function Initial(maxBytes: int, maxEntry: int): State {
    State(maxBytes, maxEntry, [], map[], map[], map[])
  }

  datatype Event =
    | Arrive(id: RequestId, hash: string, ifNoneMatch: string)
    | LookUp(id: RequestId)
    | Join(id: RequestId, newFlight: FlightId)
    | FetchDone(id: RequestId, hash: string, reply: Reply)
    | Store(id: RequestId)
    | Release(id: RequestId)
    | Close(id: RequestId)
    | Wake(id: RequestId)
    | PassStart(id: RequestId)
    | PassEnd(id: RequestId, reply: Reply)

  /** Where a request goes once its flight has a result. */
  function After(result: Result, ifNoneMatch: string): Phase {
    match result
    case Failed => Answered(BadGateway)
    case Fetched(entry) => Answered(Answer(entry, ifNoneMatch))
    case Uncached(status) => if status == STATUS_OK then Bypass else Answered(StatusOnly(status))
  }

  predicate InPhase(s: State, id: RequestId, phase: Phase) {
    id in s.requests && s.requests[id].phase == phase
  }

  predicate OnFlight(s: State, id: RequestId, phase: Phase) {
    InPhase(s, id, phase) && s.requests[id].flight.Some? && s.requests[id].flight.value in s.flights
  }

  predicate Enabled(s: State, e: Event) {
    match e
    case Arrive(id, _, _) => id !in s.requests
    case LookUp(id) => InPhase(s, id, Start)
    case Join(id, newFlight) => InPhase(s, id, Missed) && newFlight !in s.flights
    case FetchDone(id, hash, _) =>
      OnFlight(s, id, Leading) && s.requests[id].hash == hash
    case Store(id) => OnFlight(s, id, HasResult) && s.flights[s.requests[id].flight.value].result.Some?
    case Release(id) => OnFlight(s, id, Stored)
    case Close(id) => OnFlight(s, id, Released) && s.flights[s.requests[id].flight.value].result.Some?
    case Wake(id) =>
      && OnFlight(s, id, Waiting) && s.flights[s.requests[id].flight.value].closed
      && s.flights[s.requests[id].flight.value].result.Some?
    case PassStart(id) => InPhase(s, id, Bypass)
    case PassEnd(id, _) => InPhase(s, id, Streaming)
  }

  function Move(s: State, id: RequestId, phase: Phase): State
    requires id in s.requests
  {
    s.(requests := s.requests[id := s.requests[id].(phase := phase)])
  }

  function Apply(s: State, e: Event): State
    requires Enabled(s, e)
  {
    match e
    case Arrive(id, hash, ifNoneMatch) => s.(requests := s.requests[id := Request(hash, ifNoneMatch, None, Start, false)])
    case LookUp(id) =>
      var r := s.requests[id];
      if Has(s.cache, r.hash) then
        Move(s, id, Answered(Answer(Find(s.cache, r.hash), r.ifNoneMatch))).(cache := GetList(s.cache, r.hash))
      else Move(s, id, Missed)
    case Join(id, newFlight) =>
      var r := s.requests[id];
      if r.hash in s.inflight then
        s.(requests := s.requests[id := r.(flight := Some(s.inflight[r.hash]), phase := Waiting)])
      else
        s.(requests := s.requests[id := r.(flight := Some(newFlight), phase := Leading)],
           flights := s.flights[newFlight := Flight(r.hash, id, None, false)],
           inflight := s.inflight[r.hash := newFlight])
    case FetchDone(id, _, reply) =>
      var f := s.requests[id].flight.value;
      Move(s, id, HasResult).(flights := s.flights[f := s.flights[f].(result := Some(Fetch(reply, s.maxEntry)))])
    case Store(id) =>
      var r := s.requests[id];
      var result := s.flights[r.flight.value].result.value;
      Move(s, id, Stored).(cache :=
        if result.Fetched? then PutList(s.cache, r.hash, result.entry, s.maxBytes, s.maxEntry) else s.cache)
    case Release(id) => Move(s, id, Released).(inflight := s.inflight - {s.requests[id].hash})
    case Close(id) =>
      var r := s.requests[id];
      var f := r.flight.value;
      Move(s, id, After(s.flights[f].result.value, r.ifNoneMatch)).(flights := s.flights[f := s.flights[f].(closed := true)])
    case Wake(id) =>
      var r := s.requests[id];
      Move(s, id, After(s.flights[r.flight.value].result.value, r.ifNoneMatch))
    case PassStart(id) =>
      s.(requests := s.requests[id := s.requests[id].(phase := Streaming, own := true)])
    case PassEnd(id, reply) =>
      Move(s, id, Answered(if reply.TransportError? then BadGateway else Streamed(reply)))
  }

  function Run(maxBytes: int, maxEntry: int, es: seq<Event>): State {
    if es == [] then Initial(maxBytes, maxEntry)
    else
      var s := Run(maxBytes, maxEntry, es[..|es| - 1]);
      if Enabled(s, es[|es| - 1]) then Apply(s, es[|es| - 1]) else s
  }

  // ----- the invariant

  predicate Unreleased(phase: Phase) { phase.Leading? || phase.HasResult? || phase.Stored? }

  /** The in-flight table names a flight of that hash whose leader has not released it. */
  ghost predicate TableOk(s: State, hash: string) {
    && hash in s.inflight && s.inflight[hash] in s.flights
    && var flight := s.flights[s.inflight[hash]];
    && flight.hash == hash && flight.leader in s.requests
    && Unreleased(s.requests[flight.leader].phase)
    && s.requests[flight.leader].flight == Some(s.inflight[hash])
  }

  ghost predicate FlightOk(s: State, f: FlightId) {
    && f in s.flights
    && var flight := s.flights[f];
    && flight.leader in s.requests && s.requests[flight.leader].flight == Some(f)
    && s.requests[flight.leader].hash == flight.hash
    && !s.requests[flight.leader].phase.Waiting?
    && (flight.closed ==> flight.result.Some? && !Unreleased(s.requests[flight.leader].phase)
                          && !s.requests[flight.leader].phase.Released?)
    && (flight.result.None? <==> s.requests[flight.leader].phase.Leading?)
  }

  ghost predicate RequestOk(s: State, id: RequestId) {
    && id in s.requests
    && var r := s.requests[id];
    && (r.flight.None? ==> r.phase.Start? || r.phase.Missed? || r.phase.Answered?)
    && (r.flight.Some? ==> r.flight.value in s.flights && s.flights[r.flight.value].hash == r.hash && !r.phase.Start? && !r.phase.Missed?)
    && (Unreleased(r.phase) ==> r.hash in s.inflight && Some(s.inflight[r.hash]) == r.flight)
    && (Unreleased(r.phase) || r.phase.Released? ==> s.flights[r.flight.value].leader == id)
    && (r.flight.Some? && Ended(r.phase) ==> Shared(s, r))
    && (r.flight.None? || !Ended(r.phase) ==> !r.own)
  }

  /** Done with its flight, if it had one. */
  predicate Ended(phase: Phase) { phase.Answered? || phase.Bypass? || phase.Streaming? }

  /**
   A request that is done with a flight goes on as the flight's one result says; when that is to
   bypass the cache, it fetches on its own.
   */
  ghost predicate Shared(s: State, r: Request)
    requires r.flight.Some? && r.flight.value in s.flights
  {
    && var flight := s.flights[r.flight.value];
    && flight.closed && flight.result.Some?
    && var due := After(flight.result.value, r.ifNoneMatch);
    && if due.Bypass? then
         && (r.own <==> !r.phase.Bypass?)
         && (r.phase.Answered? ==> r.phase.response.BadGateway? || r.phase.response.Streamed?)
       else r.phase == due && !r.own
  }

  ghost predicate Inv(s: State) {
    && (forall h :: h in s.inflight ==> TableOk(s, h))
    && (forall f :: f in s.flights ==> FlightOk(s, f))
    && (forall id :: id in s.requests ==> RequestOk(s, id))
  }

  lemma TableKept(s: State, e: Event, h: string)
    requires Enabled(s, e) && h in Apply(s, e).inflight
    requires h in s.inflight ==> TableOk(s, h) && FlightOk(s, s.inflight[h])
    requires !e.Arrive? ==> RequestOk(s, e.id)
    ensures TableOk(Apply(s, e), h)
  {
  }

  lemma FlightKept(s: State, e: Event, f: FlightId)
    requires Enabled(s, e) && f in Apply(s, e).flights
    requires f in s.flights ==> FlightOk(s, f)
    requires !e.Arrive? ==> RequestOk(s, e.id)
    ensures FlightOk(Apply(s, e), f)
  {
  }

  /** A request leaving its flight, or fetching on its own afterwards. */
  lemma LeavingRequestKept(s: State, e: Event)
    requires Enabled(s, e) && (e.Close? || e.Wake? || e.PassStart? || e.PassEnd?)
    requires RequestOk(s, e.id)
    requires s.requests[e.id].flight.Some? ==> FlightOk(s, s.requests[e.id].flight.value)
    ensures RequestOk(Apply(s, e), e.id)
  {
  }

  /** The request that takes the step. */
  lemma OwnRequestKept(s: State, e: Event)
    requires Enabled(s, e)
    requires !e.Arrive? ==> RequestOk(s, e.id)
    requires !e.Arrive? && s.requests[e.id].flight.Some? ==> FlightOk(s, s.requests[e.id].flight.value)
    requires e.Join? && s.requests[e.id].hash in s.inflight ==> TableOk(s, s.requests[e.id].hash)
    ensures RequestOk(Apply(s, e), e.id)
  {
    if e.Close? || e.Wake? || e.PassStart? || e.PassEnd? {
      LeavingRequestKept(s, e);
    }
  }

  /** Any other request. */
  lemma OtherRequestKept(s: State, e: Event, id: RequestId)
    requires Enabled(s, e) && id != e.id
    requires RequestOk(s, id)
    requires s.requests[id].flight.Some? ==> FlightOk(s, s.requests[id].flight.value)
    requires !e.Arrive? ==> RequestOk(s, e.id)
    ensures RequestOk(Apply(s, e), id)
  {
    if s.requests[id].flight.Some? {
      FlightStable(s, e, s.requests[id].flight.value);
    }
  }

  /** A flight's result, once there, never changes, and closing it is final. */
  lemma FlightStable(s: State, e: Event, f: FlightId)
    requires Enabled(s, e) && FlightOk(s, f)
    requires !e.Arrive? ==> RequestOk(s, e.id)
    ensures var g := Apply(s, e).flights;
      && f in g && g[f].hash == s.flights[f].hash && g[f].leader == s.flights[f].leader
      && (s.flights[f].result.Some? ==> g[f].result == s.flights[f].result)
      && (s.flights[f].closed ==> g[f].closed)
  {
  }

  lemma ApplyInv(s: State, e: Event)
    requires Inv(s) && Enabled(s, e)
    ensures Inv(Apply(s, e))
  {
    var t := Apply(s, e);
    forall h | h in t.inflight ensures TableOk(t, h) {
      TableKept(s, e, h);
    }
    forall f | f in t.flights ensures FlightOk(t, f) {
      FlightKept(s, e, f);
    }
    forall id | id in t.requests ensures RequestOk(t, id) {
      if id == e.id {
        OwnRequestKept(s, e);
      } else {
        OtherRequestKept(s, e, id);
      }
    }
  }

  lemma {:induction false} RunInv(maxBytes: int, maxEntry: int, es: seq<Event>)
    ensures Inv(Run(maxBytes, maxEntry, es))
  {
    if es != [] {
      RunInv(maxBytes, maxEntry, es[..|es| - 1]);
      var s := Run(maxBytes, maxEntry, es[..|es| - 1]);
      var e := es[|es| - 1];
      if Enabled(s, e) {
        ApplyInv(s, e);
      }
    }
  }

  /**
   At every point at most one coalesced fetch per hash is unreleased, and the in-flight table names
   exactly those.
   */
  lemma OneCoalescedFetch(maxBytes: int, maxEntry: int, es: seq<Event>, a: RequestId, b: RequestId)
    ensures var s := Run(maxBytes, maxEntry, es);
      && (a in s.requests && b in s.requests && Unreleased(s.requests[a].phase) && Unreleased(s.requests[b].phase) ==>
          s.requests[a].hash == s.requests[b].hash ==> a == b)
      && (a in s.requests && Unreleased(s.requests[a].phase) ==>
          s.requests[a].hash in s.inflight && Some(s.inflight[s.requests[a].hash]) == s.requests[a].flight)
      && (forall h :: h in s.inflight ==> TableOk(s, h))
  {
    var s := Run(maxBytes, maxEntry, es);
    RunInv(maxBytes, maxEntry, es);
    assert a in s.requests ==> RequestOk(s, a);
    assert b in s.requests ==> RequestOk(s, b);
  }

  /** Everybody who joined a flight ends as its single result, written by its leader, says. */
  lemma WaitersShareResult(maxBytes: int, maxEntry: int, es: seq<Event>, id: RequestId)
    ensures var s := Run(maxBytes, maxEntry, es);
      id in s.requests && s.requests[id].flight.Some? && Ended(s.requests[id].phase) ==>
        s.requests[id].flight.value in s.flights && Shared(s, s.requests[id])
  {
    var s := Run(maxBytes, maxEntry, es);
    RunInv(maxBytes, maxEntry, es);
    assert id in s.requests ==> RequestOk(s, id);
  }

  // ----- transparency, for an immutable origin

  /** The entry of an immutable origin's reply is the object the hash names. */
  ghost predicate FromImmutable(origin: string -> Entry, hash: string, reply: Reply) {
    reply.Reply? && reply.status == STATUS_OK && !reply.bodyFails ==>
      Entry(reply.body, reply.contentType, reply.etag) == origin(hash)
  }

  lemma FetchGivesObject(origin: string -> Entry, hash: string, reply: Reply, maxEntry: int)
    requires FromImmutable(origin, hash, reply)
    ensures Fetch(reply, maxEntry).Fetched? ==>
              Fetch(reply, maxEntry).entry == origin(hash) && origin(hash).etag != "" && |origin(hash).body| <= maxEntry
  {
  }

  /** Every reply to a coalesced fetch is an immutable origin's. */
  ghost predicate Immutable(es: seq<Event>, origin: string -> Entry) {
    forall i :: 0 <= i < |es| && es[i].FetchDone? ==> FromImmutable(origin, es[i].hash, es[i].reply)
  }

  /** Everything cached is the origin's object. */
  ghost predicate CacheOk(s: State, origin: string -> Entry) {
    forall x :: x in s.cache ==> x.entry == origin(x.key)
  }

  ghost predicate FlightTrue(flight: Flight, origin: string -> Entry) {
    flight.result.Some? && flight.result.value.Fetched? ==> flight.result.value.entry == origin(flight.hash)
  }

  /** What a finished request was told. */
  ghost predicate ResponseOk(r: Request, response: Response, origin: string -> Entry) {
    && (response.Full? ==>
         response.entry == origin(r.hash) && (r.ifNoneMatch == "" || r.ifNoneMatch != origin(r.hash).etag))
    && (response.NotModified? ==> r.ifNoneMatch != "" && r.ifNoneMatch == origin(r.hash).etag == response.etag)
  }

  ghost predicate RequestTrue(r: Request, origin: string -> Entry) {
    r.phase.Answered? ==> ResponseOk(r, r.phase.response, origin)
  }

  ghost predicate Transparent(s: State, origin: string -> Entry) {
    && CacheOk(s, origin)
    && (forall f :: f in s.flights ==> FlightTrue(s.flights[f], origin))
    && (forall id :: id in s.requests ==> RequestTrue(s.requests[id], origin))
  }

  lemma {:induction false} FindIn(l: Recency, key: string)
    requires Has(l, key)
    ensures Item(key, Find(l, key)) in l
  {
    if l[0].key != key {
      HasTail(l, key);
      FindIn(l[1..], key);
    } else {
      assert l[0] == Item(key, Find(l, key));
    }
  }

  lemma GetKeepsItems(l: Recency, key: string)
    ensures forall x :: x in GetList(l, key) ==> x in l
  {
    WithoutLacks(l, key);
    if Has(l, key) {
      FindIn(l, key);
    }
  }

  lemma PutKeepsItems(l: Recency, key: string, entry: Entry, maxBytes: int, maxEntry: int)
    ensures forall x :: x in PutList(l, key, entry, maxBytes, maxEntry) ==> x in l || x == Item(key, entry)
  {
    WithoutLacks(l, key);
    FitLongest(Without(l, key), maxBytes - |entry.body|);
  }

  lemma CacheKept(s: State, e: Event, origin: string -> Entry)
    requires Inv(s) && Enabled(s, e) && Transparent(s, origin)
    ensures CacheOk(Apply(s, e), origin)
  {
    if e.LookUp? && Has(s.cache, s.requests[e.id].hash) {
      GetKeepsItems(s.cache, s.requests[e.id].hash);
    } else if e.Store? {
      var r := s.requests[e.id];
      assert RequestOk(s, e.id) && FlightTrue(s.flights[r.flight.value], origin);
      var result := s.flights[r.flight.value].result.value;
      if result.Fetched? {
        PutKeepsItems(s.cache, r.hash, result.entry, s.maxBytes, s.maxEntry);
      }
    }
  }

  lemma FlightTrueKept(s: State, e: Event, origin: string -> Entry, f: FlightId)
    requires Enabled(s, e) && f in Apply(s, e).flights && (f in s.flights ==> FlightTrue(s.flights[f], origin))
    requires !e.Arrive? ==> RequestOk(s, e.id)
    requires e.FetchDone? ==> FromImmutable(origin, e.hash, e.reply)
    ensures FlightTrue(Apply(s, e).flights[f], origin)
  {
    if e.FetchDone? {
      FetchGivesObject(origin, e.hash, e.reply, s.maxEntry);
    }
  }

  lemma RequestTrueKept(s: State, e: Event, origin: string -> Entry)
    requires Inv(s) && Enabled(s, e) && Transparent(s, origin)
    ensures RequestTrue(Apply(s, e).requests[e.id], origin)
  {
    if e.LookUp? && Has(s.cache, s.requests[e.id].hash) {
      FindIn(s.cache, s.requests[e.id].hash);
    } else if e.Close? || e.Wake? {
      assert RequestOk(s, e.id) && FlightTrue(s.flights[s.requests[e.id].flight.value], origin);
    }
  }

  lemma ApplyTransparent(s: State, e: Event, origin: string -> Entry)
    requires Inv(s) && Enabled(s, e) && Transparent(s, origin)
    requires e.FetchDone? ==> FromImmutable(origin, e.hash, e.reply)
    ensures Transparent(Apply(s, e), origin)
  {
    var t := Apply(s, e);
    CacheKept(s, e, origin);
    forall f | f in t.flights ensures FlightTrue(t.flights[f], origin) {
      assert f in s.flights ==> FlightTrue(s.flights[f], origin);
      FlightTrueKept(s, e, origin, f);
    }
    forall id | id in t.requests ensures RequestTrue(t.requests[id], origin) {
      if id == e.id {
        RequestTrueKept(s, e, origin);
      } else {
        assert RequestTrue(s.requests[id], origin);
      }
    }
  }

  lemma {:induction false} RunTransparent(maxBytes: int, maxEntry: int, es: seq<Event>, origin: string -> Entry)
    requires Immutable(es, origin)
    ensures Transparent(Run(maxBytes, maxEntry, es), origin)
  {
    if es != [] {
      var front, last := es[..|es| - 1], es[|es| - 1];
      RunTransparent(maxBytes, maxEntry, front, origin);
      RunInv(maxBytes, maxEntry, front);
      if Enabled(Run(maxBytes, maxEntry, front), last) {
        ApplyTransparent(Run(maxBytes, maxEntry, front), last, origin);
      }
    }
  }

  /**
   Cache transparency for an immutable origin: every full answer the edge gives is the origin's
   object, and an answer from an entry is a 304 if and only if the client's tag is the object's.
   */
  lemma CacheTransparent(maxBytes: int, maxEntry: int, es: seq<Event>, origin: string -> Entry, id: RequestId)
    requires Immutable(es, origin)
    ensures var s := Run(maxBytes, maxEntry, es);
      && (id in s.requests && s.requests[id].phase.Answered? ==>
          ResponseOk(s.requests[id], s.requests[id].phase.response, origin))
      && (forall x :: x in s.cache ==> x.entry == origin(x.key))
  {
    RunTransparent(maxBytes, maxEntry, es, origin);
    var s := Run(maxBytes, maxEntry, es);
    assert id in s.requests ==> RequestTrue(s.requests[id], origin);
  }
}
