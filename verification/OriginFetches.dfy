/**
 How many fetches of one hash the origin sees at once. Misses are coalesced, but a request whose
 flight brought back a good reply without an entry to keep fetches again on its own.
 */
module OriginFetches {
  import opened Decimal
  import opened SingleFlight

  /** A good reply of which fetch keeps no entry: unmarked, announced too large or found too large. */
  predicate Unkept(reply: Reply, maxEntry: int) {
    && reply.Reply? && reply.status == STATUS_OK
    && (!Cacheable(reply, maxEntry) || (!reply.bodyFails && |reply.body| > maxEntry))
  }

  lemma BypassIffUnkept(reply: Reply, maxEntry: int)
    ensures Fetch(reply, maxEntry) == Uncached(STATUS_OK) <==> Unkept(reply, maxEntry)
  {
  }

  /** An origin fetch of the request is running: its flight's, which it leads, or its own. */
  predicate Running(s: State, id: RequestId) {
    id in s.requests && (s.requests[id].phase.Leading? || s.requests[id].phase.Streaming?)
  }

  /** At most one origin fetch of the hash is running. */
  ghost predicate OneRunning(s: State, hash: string) {
    forall a, b :: Running(s, a) && Running(s, b) && s.requests[a].hash == s.requests[b].hash == hash ==> a == b
  }

  /** The flight a request joined came back with a good reply and no entry. */
  predicate Bypasses(s: State, id: RequestId) {
    && id in s.requests && s.requests[id].flight.Some? && s.requests[id].flight.value in s.flights
    && s.flights[s.requests[id].flight.value].result == Some(Uncached(STATUS_OK))
  }

  /**
   Who fetches on its own, over every run: only a request whose flight's result is an uncached 200,
   and every such request by the time it is answered.
   */
  lemma OwnFetchIffUncached(maxBytes: int, maxEntry: int, es: seq<Event>, id: RequestId)
    ensures var s := Run(maxBytes, maxEntry, es);
      id in s.requests ==>
        && (s.requests[id].own ==> Bypasses(s, id))
        && (s.requests[id].phase.Answered? ==> (s.requests[id].own <==> Bypasses(s, id)))
  {
    RunInv(maxBytes, maxEntry, es);
    if id in Run(maxBytes, maxEntry, es).requests {
      OwnIffBypasses(Run(maxBytes, maxEntry, es), id);
    }
  }

  lemma OwnIffBypasses(s: State, id: RequestId)
    requires RequestOk(s, id)
    ensures s.requests[id].own ==> Bypasses(s, id)
    ensures s.requests[id].phase.Answered? ==> (s.requests[id].own <==> Bypasses(s, id))
  {
  }

  // ----- when the origin sees one fetch at a time

  /** No flight of the hash came back with an uncached 200. */
  ghost predicate NoBypass(s: State, hash: string) {
    forall f :: f in s.flights && s.flights[f].hash == hash ==> s.flights[f].result != Some(Uncached(STATUS_OK))
  }

  ghost predicate Keepable(es: seq<Event>, hash: string, maxEntry: int) {
    forall i :: 0 <= i < |es| && es[i].FetchDone? && es[i].hash == hash ==> !Unkept(es[i].reply, maxEntry)
  }

  lemma KeepableStep(s: State, e: Event, hash: string)
    requires Inv(s) && Enabled(s, e) && NoBypass(s, hash)
    requires e.FetchDone? && e.hash == hash ==> !Unkept(e.reply, s.maxEntry)
    ensures NoBypass(Apply(s, e), hash) && Apply(s, e).maxEntry == s.maxEntry
  {
    if e.FetchDone? {
      assert RequestOk(s, e.id);
      BypassIffUnkept(e.reply, s.maxEntry);
    }
  }

  lemma {:induction false} KeepableRun(maxBytes: int, maxEntry: int, es: seq<Event>, hash: string)
    requires Keepable(es, hash, maxEntry)
    ensures NoBypass(Run(maxBytes, maxEntry, es), hash)
    ensures Run(maxBytes, maxEntry, es).maxEntry == maxEntry
  {
    if es != [] {
      var front, last := es[..|es| - 1], es[|es| - 1];
      KeepableRun(maxBytes, maxEntry, front, hash);
      RunInv(maxBytes, maxEntry, front);
      if Enabled(Run(maxBytes, maxEntry, front), last) {
        KeepableStep(Run(maxBytes, maxEntry, front), last, hash);
      }
    }
  }

  /** If an entry is kept of every good reply for the hash, at most one fetch of it is ever running. */
  lemma OneFetchIfKeepable(maxBytes: int, maxEntry: int, es: seq<Event>, hash: string)
    requires Keepable(es, hash, maxEntry)
    ensures OneRunning(Run(maxBytes, maxEntry, es), hash)
  {
    KeepableRun(maxBytes, maxEntry, es, hash);
    RunInv(maxBytes, maxEntry, es);
    OneLeader(Run(maxBytes, maxEntry, es), hash);
  }

  lemma RunningLeads(s: State, hash: string, id: RequestId)
    requires NoBypass(s, hash) && Running(s, id) && s.requests[id].hash == hash && RequestOk(s, id)
    ensures s.requests[id].phase.Leading? && hash in s.inflight
    ensures s.inflight[hash] in s.flights && s.flights[s.inflight[hash]].leader == id
  {
  }

  lemma OneLeader(s: State, hash: string)
    requires Inv(s) && NoBypass(s, hash)
    ensures OneRunning(s, hash)
  {
    forall a, b | Running(s, a) && Running(s, b) && s.requests[a].hash == s.requests[b].hash == hash ensures a == b {
      RunningLeads(s, hash, a);
      RunningLeads(s, hash, b);
    }
  }

  // ----- two clients of an object of which no entry is kept

  ghost predicate RepliesAre(es: seq<Event>, hash: string, reply: Reply) {
    forall i :: 0 <= i < |es| && es[i].FetchDone? && es[i].hash == hash ==> es[i].reply == reply
  }

  /** The run so far: its replies, and the state it ends in. */
  ghost predicate At(maxBytes: int, maxEntry: int, es: seq<Event>, hash: string, reply: Reply, s: State) {
    RepliesAre(es, hash, reply) && Run(maxBytes, maxEntry, es) == s
  }

  lemma AtNext(maxBytes: int, maxEntry: int, es: seq<Event>, hash: string, reply: Reply, s: State, e: Event, u: State)
    requires At(maxBytes, maxEntry, es, hash, reply, s) && Enabled(s, e) && u == Apply(s, e)
    requires e.FetchDone? ==> e.reply == reply
    ensures At(maxBytes, maxEntry, es + [e], hash, reply, u)
  {
    assert (es + [e])[..|es|] == es;
  }

  /** A state with two requests and an empty cache. */
  function Two(maxBytes: int, maxEntry: int, inflight: map<string, FlightId>, flights: map<FlightId, Flight>, a: Request, b: Request): State {
    State(maxBytes, maxEntry, [], inflight, flights, map[0 := a, 1 := b])
  }

  function Plain(hash: string, flight: Option<FlightId>, phase: Phase, own: bool): Request {
    Request(hash, "", flight, phase, own)
  }

  lemma MissStep(s: State, id: RequestId, u: State)
    requires InPhase(s, id, Start) && s.cache == [] && u == Move(s, id, Missed)
    ensures Enabled(s, LookUp(id)) && Apply(s, LookUp(id)) == u
  {
  }

  lemma BothArrive(maxBytes: int, maxEntry: int, hash: string, reply: Reply) returns (es: seq<Event>)
    ensures At(maxBytes, maxEntry, es, hash, reply,
               Two(maxBytes, maxEntry, map[], map[], Plain(hash, None, Start, false), Plain(hash, None, Start, false)))
  {
    var start := Plain(hash, None, Start, false);
    var s0 := Initial(maxBytes, maxEntry);
    var s1 := s0.(requests := map[0 := start]);
    var s2 := Two(maxBytes, maxEntry, map[], map[], start, start);
    es := [];
    AtNext(maxBytes, maxEntry, es, hash, reply, s0, Arrive(0, hash, ""), s1);
    es := es + [Arrive(0, hash, "")];
    AtNext(maxBytes, maxEntry, es, hash, reply, s1, Arrive(1, hash, ""), s2);
    es := es + [Arrive(1, hash, "")];
  }

  lemma BothMiss(maxBytes: int, maxEntry: int, hash: string, reply: Reply) returns (es: seq<Event>)
    ensures At(maxBytes, maxEntry, es, hash, reply,
               Two(maxBytes, maxEntry, map[], map[], Plain(hash, None, Missed, false), Plain(hash, None, Missed, false)))
  {
    var start, missed := Plain(hash, None, Start, false), Plain(hash, None, Missed, false);
    var s0 := Two(maxBytes, maxEntry, map[], map[], start, start);
    var s1 := Two(maxBytes, maxEntry, map[], map[], missed, start);
    var s2 := Two(maxBytes, maxEntry, map[], map[], missed, missed);
    es := BothArrive(maxBytes, maxEntry, hash, reply);
    MissStep(s0, 0, s1);
    AtNext(maxBytes, maxEntry, es, hash, reply, s0, LookUp(0), s1);
    es := es + [LookUp(0)];
    MissStep(s1, 1, s2);
    AtNext(maxBytes, maxEntry, es, hash, reply, s1, LookUp(1), s2);
    es := es + [LookUp(1)];
  }

  /** One leads, the other waits, and the fetch comes back with a good reply and no entry. */
  lemma OneFetches(maxBytes: int, maxEntry: int, es0: seq<Event>, hash: string, reply: Reply) returns (es: seq<Event>)
    requires Unkept(reply, maxEntry)
    requires At(maxBytes, maxEntry, es0, hash, reply,
                Two(maxBytes, maxEntry, map[], map[], Plain(hash, None, Missed, false), Plain(hash, None, Missed, false)))
    ensures At(maxBytes, maxEntry, es, hash, reply,
               Two(maxBytes, maxEntry, map[hash := 0], map[0 := Flight(hash, 0, Some(Uncached(STATUS_OK)), false)],
                   Plain(hash, Some(0), HasResult, false), Plain(hash, Some(0), Waiting, false)))
  {
    var missed := Plain(hash, None, Missed, false);
    var leading, has, waiting := Plain(hash, Some(0), Leading, false), Plain(hash, Some(0), HasResult, false), Plain(hash, Some(0), Waiting, false);
    var before, after := Flight(hash, 0, None, false), Flight(hash, 0, Some(Uncached(STATUS_OK)), false);
    var s0 := Two(maxBytes, maxEntry, map[], map[], missed, missed);
    var s1 := Two(maxBytes, maxEntry, map[hash := 0], map[0 := before], leading, missed);
    var s2 := Two(maxBytes, maxEntry, map[hash := 0], map[0 := before], leading, waiting);
    var s3 := Two(maxBytes, maxEntry, map[hash := 0], map[0 := after], has, waiting);
    BypassIffUnkept(reply, maxEntry);
    es := es0;
    AtNext(maxBytes, maxEntry, es, hash, reply, s0, Join(0, 0), s1);
    es := es + [Join(0, 0)];
    AtNext(maxBytes, maxEntry, es, hash, reply, s1, Join(1, 1), s2);
    es := es + [Join(1, 1)];
    AtNext(maxBytes, maxEntry, es, hash, reply, s2, FetchDone(0, hash, reply), s3);
    es := es + [FetchDone(0, hash, reply)];
  }

  lemma StoreStep(s: State, u: State, hash: string, flight: Flight, waiting: Request)
    requires flight.result == Some(Uncached(STATUS_OK))
    requires s == Two(s.maxBytes, s.maxEntry, map[hash := 0], map[0 := flight], Plain(hash, Some(0), HasResult, false), waiting)
    requires u == Two(s.maxBytes, s.maxEntry, map[hash := 0], map[0 := flight], Plain(hash, Some(0), Stored, false), waiting)
    ensures Enabled(s, Store(0)) && Apply(s, Store(0)) == u
  {
  }

  lemma ReleaseStep(s: State, u: State, hash: string, flight: Flight, waiting: Request)
    requires s == Two(s.maxBytes, s.maxEntry, map[hash := 0], map[0 := flight], Plain(hash, Some(0), Stored, false), waiting)
    requires u == Two(s.maxBytes, s.maxEntry, map[], map[0 := flight], Plain(hash, Some(0), Released, false), waiting)
    ensures Enabled(s, Release(0)) && Apply(s, Release(0)) == u
  {
  }

  lemma CloseStep(s: State, u: State, hash: string, flight: Flight, waiting: Request)
    requires flight.result == Some(Uncached(STATUS_OK))
    requires s == Two(s.maxBytes, s.maxEntry, map[], map[0 := flight], Plain(hash, Some(0), Released, false), waiting)
    requires u == Two(s.maxBytes, s.maxEntry, map[], map[0 := flight.(closed := true)], Plain(hash, Some(0), Bypass, false), waiting)
    ensures Enabled(s, Close(0)) && Apply(s, Close(0)) == u
  {
  }

  lemma LeaderCloses(maxBytes: int, maxEntry: int, es0: seq<Event>, hash: string, reply: Reply) returns (es: seq<Event>)
    requires At(maxBytes, maxEntry, es0, hash, reply,
                Two(maxBytes, maxEntry, map[hash := 0], map[0 := Flight(hash, 0, Some(Uncached(STATUS_OK)), false)],
                    Plain(hash, Some(0), HasResult, false), Plain(hash, Some(0), Waiting, false)))
    ensures At(maxBytes, maxEntry, es, hash, reply,
               Two(maxBytes, maxEntry, map[], map[0 := Flight(hash, 0, Some(Uncached(STATUS_OK)), true)],
                   Plain(hash, Some(0), Bypass, false), Plain(hash, Some(0), Waiting, false)))
  {
    var open, closed := Flight(hash, 0, Some(Uncached(STATUS_OK)), false), Flight(hash, 0, Some(Uncached(STATUS_OK)), true);
    var waiting := Plain(hash, Some(0), Waiting, false);
    var s0 := Two(maxBytes, maxEntry, map[hash := 0], map[0 := open], Plain(hash, Some(0), HasResult, false), waiting);
    var s1 := Two(maxBytes, maxEntry, map[hash := 0], map[0 := open], Plain(hash, Some(0), Stored, false), waiting);
    var s2 := Two(maxBytes, maxEntry, map[], map[0 := open], Plain(hash, Some(0), Released, false), waiting);
    var s3 := Two(maxBytes, maxEntry, map[], map[0 := closed], Plain(hash, Some(0), Bypass, false), waiting);
    StoreStep(s0, s1, hash, open, waiting);
    ReleaseStep(s1, s2, hash, open, waiting);
    CloseStep(s2, s3, hash, open, waiting);
    es := es0;
    AtNext(maxBytes, maxEntry, es, hash, reply, s0, Store(0), s1);
    es := es + [Store(0)];
    AtNext(maxBytes, maxEntry, es, hash, reply, s1, Release(0), s2);
    es := es + [Release(0)];
    AtNext(maxBytes, maxEntry, es, hash, reply, s2, Close(0), s3);
    es := es + [Close(0)];
  }

  lemma BothStream(maxBytes: int, maxEntry: int, es0: seq<Event>, hash: string, reply: Reply) returns (es: seq<Event>)
    requires At(maxBytes, maxEntry, es0, hash, reply,
                Two(maxBytes, maxEntry, map[], map[0 := Flight(hash, 0, Some(Uncached(STATUS_OK)), true)],
                    Plain(hash, Some(0), Bypass, false), Plain(hash, Some(0), Waiting, false)))
    ensures RepliesAre(es, hash, reply)
    ensures var s := Run(maxBytes, maxEntry, es);
      Running(s, 0) && Running(s, 1) && s.requests[0].hash == s.requests[1].hash == hash
  {
    var flights := map[0 := Flight(hash, 0, Some(Uncached(STATUS_OK)), true)];
    var bypass, streaming := Plain(hash, Some(0), Bypass, false), Plain(hash, Some(0), Streaming, true);
    var s0 := Two(maxBytes, maxEntry, map[], flights, bypass, Plain(hash, Some(0), Waiting, false));
    var s1 := Two(maxBytes, maxEntry, map[], flights, bypass, bypass);
    var s2 := Two(maxBytes, maxEntry, map[], flights, streaming, bypass);
    var s3 := Two(maxBytes, maxEntry, map[], flights, streaming, streaming);
    es := es0;
    AtNext(maxBytes, maxEntry, es, hash, reply, s0, Wake(1), s1);
    es := es + [Wake(1)];
    AtNext(maxBytes, maxEntry, es, hash, reply, s1, PassStart(0), s2);
    es := es + [PassStart(0)];
    AtNext(maxBytes, maxEntry, es, hash, reply, s2, PassStart(1), s3);
    es := es + [PassStart(1)];
  }

  /** Two clients of one such object end up fetching it from the origin at the same time. */
  lemma TwoFetchesAtOnce(maxBytes: int, maxEntry: int, hash: string, reply: Reply) returns (es: seq<Event>)
    requires Unkept(reply, maxEntry)
    ensures RepliesAre(es, hash, reply) && !OneRunning(Run(maxBytes, maxEntry, es), hash)
  {
    es := BothMiss(maxBytes, maxEntry, hash, reply);
    es := OneFetches(maxBytes, maxEntry, es, hash, reply);
    es := LeaderCloses(maxBytes, maxEntry, es, hash, reply);
    es := BothStream(maxBytes, maxEntry, es, hash, reply);
  }

  /**
   An origin that answers a hash with one and the same reply never sees two fetches of it at once
   if and only if the reply is not a 200 of which fetch keeps no entry.
   */
  lemma OneFetchIffKeepable(maxBytes: int, maxEntry: int, hash: string, reply: Reply)
    ensures (forall es | RepliesAre(es, hash, reply) :: OneRunning(Run(maxBytes, maxEntry, es), hash))
       <==> !Unkept(reply, maxEntry)
  {
    if Unkept(reply, maxEntry) {
      var es := TwoFetchesAtOnce(maxBytes, maxEntry, hash, reply);
    } else {
      forall es | RepliesAre(es, hash, reply) ensures OneRunning(Run(maxBytes, maxEntry, es), hash) {
        OneFetchIfKeepable(maxBytes, maxEntry, es, hash);
      }
    }
  }
}
