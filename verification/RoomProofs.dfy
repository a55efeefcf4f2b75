/** What every run of a room keeps. */
module RoomProofs {
  import opened Decimal
  import opened Sorting
  import opened RoomModel

  // ----- gap-free total-order broadcast

  /**
   The frames enqueued to a connection are one contiguous segment of the room's frames from
   where it joined, and reach the latest frame while it is a member.
   */
  ghost predicate Segment(frames: seq<Frame>, ch: Chan, member: bool) {
    && ch.joined + |ch.sent| <= |frames|
    && ch.sent == frames[ch.joined..ch.joined + |ch.sent|]
    && (member ==> ch.joined + |ch.sent| == |frames|)
  }

  /** The segment starts with the connection's own join frame. */
  ghost predicate StartsWithJoin(ch: Chan) {
    ch.sent != [] && ch.sent[0].kind == Join && ch.sent[0].user == ch.user
  }

  ghost predicate Structure(r: Room) {
    && r.clients <= r.chans.Keys
    && (forall c :: c in r.chans ==> (c in r.clients <==> !r.chans[c].closed))
    && (forall c :: c in r.chans ==> r.chans[c].taken <= |r.chans[c].sent| <= r.chans[c].taken + SEND_BUFFER)
  }

  ghost predicate Segments(r: Room) {
    forall c :: c in r.chans ==> Segment(r.frames, r.chans[c], c in r.clients)
  }

  ghost predicate Joins(r: Room) {
    forall c :: c in r.chans ==> StartsWithJoin(r.chans[c])
  }

  lemma FanOutSegments(r: Room, frame: Frame, order: seq<ClientId>)
    requires forall c :: c in order ==> c in r.chans
    requires Structure(r) && Segments(r)
    ensures Structure(FanOut(r, frame, order)) && Segments(FanOut(r, frame, order))
    ensures forall c :: c in r.chans ==>
              FanOut(r, frame, order).chans[c].sent
              == r.chans[c].sent + if c in r.clients && !Full(r.chans[c]) then [frame] else []
  {
    var a := FanOut(r, frame, order);
    forall c | c in a.chans ensures Segment(a.frames, a.chans[c], c in a.clients) {
      assert Segment(r.frames, r.chans[c], c in r.clients);
      SegmentExtends(r.frames, frame, r.chans[c], c in r.clients);
    }
  }

  lemma SegmentExtends(frames: seq<Frame>, frame: Frame, ch: Chan, member: bool)
    requires Segment(frames, ch, member)
    ensures Segment(frames + [frame], ch, false)
    ensures Segment(frames + [frame], ch.(closed := true), false)
    ensures member ==> Segment(frames + [frame], ch.(sent := ch.sent + [frame]), true)
  {
    var n := ch.joined + |ch.sent|;
    assert (frames + [frame])[ch.joined..n] == frames[ch.joined..n];
    if member {
      assert (frames + [frame])[ch.joined..n + 1] == frames[ch.joined..n] + [frame];
    }
  }

  /** Every connection has its join frame, or is about to get it. */
  ghost predicate JoinsWith(r: Room, frame: Frame) {
    forall c :: c in r.chans && !StartsWithJoin(r.chans[c]) ==>
      r.chans[c].sent == [] && c in r.clients && frame.kind == Join && frame.user == r.chans[c].user
  }

  lemma FanOutJoins(r: Room, frame: Frame, order: seq<ClientId>)
    requires forall c :: c in order ==> c in r.chans
    requires JoinsWith(r, frame)
    ensures Joins(FanOut(r, frame, order))
  {
  }

  // ----- one notification pair and one close per connection

  /** The statuses notified for a connection, in order. */
  function StatusesOf(notices: seq<Notice>, c: ClientId): seq<Status> {
    if notices == [] then []
    else
      var front := StatusesOf(notices[..|notices| - 1], c);
      var last := notices[|notices| - 1];
      if last.client == c then front + [last.status] else front
  }

  function ExpectedStatuses(r: Room, c: ClientId): seq<Status> {
    if c !in r.chans then [] else if c in r.clients then [Online] else [Online, Offline]
  }

  /** Online exactly once, before the one offline that comes when it is gone. */
  ghost predicate Notified(r: Room) {
    forall c :: StatusesOf(r.notices, c) == ExpectedStatuses(r, c)
  }

  ghost predicate ClosedOnce(r: Room) {
    && Distinct(r.closes)
    && forall c :: c in r.closes <==> c in r.chans && r.chans[c].closed
  }

  lemma {:induction false} StatusesLast(notices: seq<Notice>, n: Notice, c: ClientId)
    ensures StatusesOf(notices + [n], c) == StatusesOf(notices, c) + if n.client == c then [n.status] else []
  {
    assert (notices + [n])[..|notices|] == notices;
  }

  lemma OfflinesLast(notices: seq<Notice>, chans: map<ClientId, Chan>, order: seq<ClientId>)
    requires (forall x :: x in order ==> x in chans) && order != []
    ensures var k := |order| - 1;
      notices + Offlines(chans, order)
      == notices + Offlines(chans, order[..k]) + [Notice(order[k], chans[order[k]].user, Offline)]
  {
    var k := |order| - 1;
    assert Offlines(chans, order) == Offlines(chans, order[..k]) + [Notice(order[k], chans[order[k]].user, Offline)];
  }

  lemma {:induction false} StatusesOfflines(notices: seq<Notice>, chans: map<ClientId, Chan>, order: seq<ClientId>, c: ClientId)
    requires (forall x :: x in order ==> x in chans) && Distinct(order)
    ensures StatusesOf(notices + Offlines(chans, order), c)
         == StatusesOf(notices, c) + if c in order then [Offline] else []
  {
    if order == [] {
      assert notices + Offlines(chans, order) == notices;
    } else {
      var k := |order| - 1;
      var n := Notice(order[k], chans[order[k]].user, Offline);
      StatusesOfflines(notices, chans, order[..k], c);
      OfflinesLast(notices, chans, order);
      StatusesLast(notices + Offlines(chans, order[..k]), n, c);
      assert c in order <==> c in order[..k] || c == order[k];
      assert c == order[k] ==> c !in order[..k];
    }
  }

  /** A fan-out notifies offline, and closes, exactly the members it drops. */
  lemma {:induction false} FanOutNotified(r: Room, frame: Frame, order: seq<ClientId>, c: ClientId)
    requires Structure(r) && Enumerates(order, Slow(r.clients, r.chans))
    ensures StatusesOf(FanOut(r, frame, order).notices, c)
         == StatusesOf(r.notices, c) + if c in Slow(r.clients, r.chans) then [Offline] else []
  {
    StatusesOfflines(r.notices, r.chans, order, c);
  }

  lemma FanOutClosedOnce(r: Room, frame: Frame, order: seq<ClientId>)
    requires Structure(r) && ClosedOnce(r) && Enumerates(order, Slow(r.clients, r.chans))
    ensures ClosedOnce(FanOut(r, frame, order))
  {
    var a := FanOut(r, frame, order);
    forall c ensures c in a.closes <==> c in a.chans && a.chans[c].closed {
      assert c in a.closes <==> c in r.closes || c in order;
    }
    forall i, j | 0 <= i < j < |a.closes| ensures a.closes[i] != a.closes[j] {
      if i < |r.closes| <= j {
        assert r.closes[i] in r.closes && order[j - |r.closes|] in order;
      }
    }
  }

  // ----- conservation of connections per user

  function Net(notices: seq<Notice>, user: Int64): int {
    if notices == [] then 0
    else
      var last := notices[|notices| - 1];
      Net(notices[..|notices| - 1], user)
      + if last.user != user then 0 else if last.status == Online then 1 else -1
  }

  function Sockets(r: Room, user: Int64): set<ClientId> {
    set c | c in r.clients && c in r.chans && r.chans[c].user == user
  }

  /** Onlines minus offlines of a user are the user's sockets in the room. */
  ghost predicate Conserved(r: Room) {
    forall u :: Net(r.notices, u) == |Sockets(r, u)|
  }

  lemma NetLast(notices: seq<Notice>, n: Notice, user: Int64)
    ensures Net(notices + [n], user)
         == Net(notices, user) + if n.user != user then 0 else if n.status == Online then 1 else -1
  {
    assert (notices + [n])[..|notices|] == notices;
  }

  function CountIn(chans: map<ClientId, Chan>, order: seq<ClientId>, user: Int64): nat
    requires forall x :: x in order ==> x in chans
  {
    if order == [] then 0
    else
      CountIn(chans, order[..|order| - 1], user) + if chans[order[|order| - 1]].user == user then 1 else 0
  }

  lemma {:induction false} NetOfflines(notices: seq<Notice>, chans: map<ClientId, Chan>, order: seq<ClientId>, user: Int64)
    requires forall x :: x in order ==> x in chans
    ensures Net(notices + Offlines(chans, order), user) == Net(notices, user) - CountIn(chans, order, user)
  {
    if order == [] {
      assert notices + Offlines(chans, order) == notices;
    } else {
      var k := |order| - 1;
      var n := Notice(order[k], chans[order[k]].user, Offline);
      NetOfflines(notices, chans, order[..k], user);
      OfflinesLast(notices, chans, order);
      NetLast(notices + Offlines(chans, order[..k]), n, user);
    }
  }

  function UserOnly(chans: map<ClientId, Chan>, xs: set<ClientId>, user: Int64): set<ClientId> {
    set c | c in xs && c in chans && chans[c].user == user
  }

  lemma {:induction false} CountInSize(chans: map<ClientId, Chan>, order: seq<ClientId>, xs: set<ClientId>, user: Int64)
    requires xs <= chans.Keys && Enumerates(order, xs)
    ensures CountIn(chans, order, user) == |UserOnly(chans, xs, user)|
  {
    if order == [] {
      assert UserOnly(chans, xs, user) == {};
    } else {
      var k := |order| - 1;
      var x := order[k];
      EnumeratesFront(order, xs);
      CountInSize(chans, order[..k], xs - {x}, user);
      var rest := UserOnly(chans, xs - {x}, user);
      assert x in order;
      assert UserOnly(chans, xs, user) == if chans[x].user == user then rest + {x} else rest;
    }
  }

  lemma EnumeratesFront(order: seq<ClientId>, xs: set<ClientId>)
    requires order != [] && Enumerates(order, xs)
    ensures Enumerates(order[..|order| - 1], xs - {order[|order| - 1]})
  {
    var k := |order| - 1;
    forall c ensures c in order[..k] <==> c in xs - {order[k]} {
      assert c in order <==> c in order[..k] || c == order[k];
    }
  }

  lemma FanOutConserves(r: Room, frame: Frame, order: seq<ClientId>, user: Int64)
    requires Structure(r) && Enumerates(order, Slow(r.clients, r.chans))
    ensures Net(FanOut(r, frame, order).notices, user) - |Sockets(FanOut(r, frame, order), user)|
         == Net(r.notices, user) - |Sockets(r, user)|
  {
    var a := FanOut(r, frame, order);
    var slow := Slow(r.clients, r.chans);
    var gone := UserOnly(r.chans, slow, user);
    NetOfflines(r.notices, r.chans, order, user);
    CountInSize(r.chans, order, slow, user);
    assert Sockets(r, user) == Sockets(a, user) + gone;
    assert Sockets(a, user) !! gone;
  }

  // ----- what is archived

  function ChatsOf(frames: seq<Frame>): seq<Frame> {
    if frames == [] then []
    else
      var front := ChatsOf(frames[..|frames| - 1]);
      if frames[|frames| - 1].kind == Chat then front + [frames[|frames| - 1]] else front
  }

  /** The archiver is called for the chat frames, in order, and for nothing else. */
  ghost predicate ArchivesChats(r: Room) {
    r.archived == ChatsOf(r.frames)
  }

  lemma ChatsLast(frames: seq<Frame>, f: Frame)
    ensures ChatsOf(frames + [f]) == ChatsOf(frames) + if f.kind == Chat then [f] else []
  {
    assert (frames + [f])[..|frames|] == frames;
  }

  // ----- every run

  ghost predicate Inv(r: Room) {
    && Structure(r) && Segments(r) && Joins(r)
    && Notified(r) && ClosedOnce(r) && Conserved(r) && ArchivesChats(r)
    && (forall f :: f in r.frames ==> f.room == r.name)
  }

  /** A step that sends is its preparation, a fan-out and what is reported afterwards. */
  lemma StepIsFanOut(r: Room, e: Event)
    requires Enabled(r, e) && Sends(r, e).Some?
    ensures var f := FanOut(Prepared(r, e), Sends(r, e).value, e.order);
      && Step(r, e).clients == f.clients && Step(r, e).chans == f.chans
      && Step(r, e).frames == f.frames && Step(r, e).closes == f.closes
      && Step(r, e).notices == f.notices + (if e.Unregister? then [Notice(e.client, r.chans[e.client].user, Offline)] else [])
  {
  }

  lemma StepWithoutFrame(r: Room, e: Event)
    requires Enabled(r, e) && Sends(r, e).None?
    ensures Step(r, e) == r || (e.Take? && Step(r, e) == r.(chans := Step(r, e).chans)
              && Step(r, e).chans == r.chans[e.client := r.chans[e.client].(taken := r.chans[e.client].taken + 1)])
  {
  }

  lemma PreparedStructure(r: Room, e: Event)
    requires Structure(r) && Enabled(r, e) && Sends(r, e).Some?
    ensures Structure(Prepared(r, e))
  {
  }

  lemma PreparedSegments(r: Room, e: Event)
    requires Structure(r) && Segments(r) && Joins(r) && Enabled(r, e) && Sends(r, e).Some?
    ensures Structure(Prepared(r, e)) && Segments(Prepared(r, e))
    ensures JoinsWith(Prepared(r, e), Sends(r, e).value)
  {
    PreparedStructure(r, e);
    var p := Prepared(r, e);
    forall c | c in p.chans ensures Segment(p.frames, p.chans[c], c in p.clients) {
      if c in r.chans {
        assert Segment(r.frames, r.chans[c], c in r.clients);
      }
    }
  }

  lemma StepStructure(r: Room, e: Event)
    requires Structure(r) && Segments(r) && Joins(r) && Enabled(r, e)
    ensures Structure(Step(r, e)) && Segments(Step(r, e)) && Joins(Step(r, e))
  {
    if Sends(r, e).Some? {
      StepIsFanOut(r, e);
      PreparedSegments(r, e);
      FanOutSegments(Prepared(r, e), Sends(r, e).value, e.order);
      FanOutJoins(Prepared(r, e), Sends(r, e).value, e.order);
    } else {
      StepWithoutFrame(r, e);
      if e.Take? {
        assert Segment(r.frames, r.chans[e.client], e.client in r.clients);
      }
    }
  }

  lemma {:induction false} AdmitStatuses(r: Room, x: ClientId, user: Int64, c: ClientId)
    requires StatusesOf(r.notices, c) == ExpectedStatuses(r, c) && x !in r.chans
    ensures StatusesOf(Admit(r, x, user).notices, c) == ExpectedStatuses(Admit(r, x, user), c)
  {
    StatusesLast(r.notices, Notice(x, user, Online), c);
  }

  lemma {:induction false} DismissStatuses(r: Room, x: ClientId, c: ClientId)
    requires StatusesOf(r.notices, c) == ExpectedStatuses(r, c) && IsMember(r, x)
    ensures StatusesOf(Dismiss(r, x).notices, c) == if x == c then [Online] else ExpectedStatuses(Dismiss(r, x), c)
  {
  }

  lemma {:induction false} PreparedStatuses(r: Room, e: Event, c: ClientId)
    requires Structure(r) && StatusesOf(r.notices, c) == ExpectedStatuses(r, c)
    requires Enabled(r, e) && Sends(r, e).Some?
    ensures StatusesOf(Prepared(r, e).notices, c)
         == if e.Unregister? && e.client == c then [Online] else ExpectedStatuses(Prepared(r, e), c)
  {
    if e.Register? {
      AdmitStatuses(r, e.client, e.user, c);
    } else if e.Unregister? {
      DismissStatuses(r, e.client, c);
    }
  }

  /** After a fan-out, exactly the slow members have moved on from online to offline. */
  lemma FanOutExpected(r: Room, frame: Frame, order: seq<ClientId>, c: ClientId)
    requires Structure(r) && (forall x :: x in order ==> x in r.chans)
    ensures ExpectedStatuses(FanOut(r, frame, order), c)
         == ExpectedStatuses(r, c) + if c in Slow(r.clients, r.chans) then [Offline] else []
  {
  }

  lemma {:induction false} StepStatuses(r: Room, e: Event, c: ClientId)
    requires Structure(r) && StatusesOf(r.notices, c) == ExpectedStatuses(r, c)
    requires Enabled(r, e) && Sends(r, e).Some?
    ensures StatusesOf(Step(r, e).notices, c) == ExpectedStatuses(Step(r, e), c)
  {
    var p, frame := Prepared(r, e), Sends(r, e).value;
    StepIsFanOut(r, e);
    PreparedStructure(r, e);
    PreparedStatuses(r, e, c);
    FanOutNotified(p, frame, e.order, c);
    FanOutExpected(p, frame, e.order, c);
    if e.Unregister? {
      StatusesLast(FanOut(p, frame, e.order).notices, Notice(e.client, r.chans[e.client].user, Offline), c);
    }
  }

  lemma StepNotified(r: Room, e: Event)
    requires Structure(r) && Notified(r) && Enabled(r, e)
    ensures Notified(Step(r, e))
  {
    if Sends(r, e).Some? {
      forall c ensures StatusesOf(Step(r, e).notices, c) == ExpectedStatuses(Step(r, e), c) {
        StepStatuses(r, e, c);
      }
    } else {
      StepWithoutFrame(r, e);
    }
  }

  lemma DismissClosedOnce(r: Room, c: ClientId)
    requires Structure(r) && ClosedOnce(r) && IsMember(r, c)
    ensures Structure(Dismiss(r, c)) && ClosedOnce(Dismiss(r, c))
  {
    var d := Dismiss(r, c);
    assert c !in r.closes;
    forall x ensures x in d.closes <==> x in d.chans && d.chans[x].closed {
      assert x in d.closes <==> x in r.closes || x == c;
    }
  }

  lemma StepClosedOnce(r: Room, e: Event)
    requires Structure(r) && ClosedOnce(r) && Enabled(r, e)
    ensures ClosedOnce(Step(r, e))
  {
    if Sends(r, e).Some? {
      StepIsFanOut(r, e);
      PreparedStructure(r, e);
      if e.Unregister? {
        DismissClosedOnce(r, e.client);
      }
      FanOutClosedOnce(Prepared(r, e), Sends(r, e).value, e.order);
    } else {
      StepWithoutFrame(r, e);
    }
  }

  lemma AdmitSockets(r: Room, c: ClientId, user: Int64, u: Int64)
    requires Structure(r) && c !in r.chans
    ensures |Sockets(Admit(r, c, user), u)| == |Sockets(r, u)| + if user == u then 1 else 0
  {
    assert Sockets(Admit(r, c, user), u) == if user == u then Sockets(r, u) + {c} else Sockets(r, u);
  }

  lemma DismissSockets(r: Room, c: ClientId, u: Int64)
    requires Structure(r) && c in r.clients
    ensures |Sockets(Dismiss(r, c), u)| == |Sockets(r, u)| - if r.chans[c].user == u then 1 else 0
  {
    assert Sockets(Dismiss(r, c), u) == if r.chans[c].user == u then Sockets(r, u) - {c} else Sockets(r, u);
  }

  lemma PreparedConserves(r: Room, e: Event, u: Int64)
    requires Structure(r) && Net(r.notices, u) == |Sockets(r, u)| && Enabled(r, e) && Sends(r, e).Some?
    ensures Net(Prepared(r, e).notices, u) - |Sockets(Prepared(r, e), u)|
         == if e.Unregister? && r.chans[e.client].user == u then 1 else 0
  {
    if e.Register? {
      NetLast(r.notices, Notice(e.client, e.user, Online), u);
      AdmitSockets(r, e.client, e.user, u);
    } else if e.Unregister? {
      DismissSockets(r, e.client, u);
    }
  }

  lemma StepNet(r: Room, e: Event, u: Int64)
    requires Structure(r) && Net(r.notices, u) == |Sockets(r, u)| && Enabled(r, e) && Sends(r, e).Some?
    ensures Net(Step(r, e).notices, u) == |Sockets(Step(r, e), u)|
  {
    var p := Prepared(r, e);
    var f := FanOut(p, Sends(r, e).value, e.order);
    StepIsFanOut(r, e);
    PreparedStructure(r, e);
    PreparedConserves(r, e, u);
    FanOutConserves(p, Sends(r, e).value, e.order, u);
    assert Sockets(Step(r, e), u) == Sockets(f, u);
    if e.Unregister? {
      NetLast(f.notices, Notice(e.client, r.chans[e.client].user, Offline), u);
    }
  }

  lemma StepConserves(r: Room, e: Event)
    requires Structure(r) && Conserved(r) && Enabled(r, e)
    ensures Conserved(Step(r, e))
  {
    forall u ensures Net(Step(r, e).notices, u) == |Sockets(Step(r, e), u)| {
      if Sends(r, e).Some? {
        StepNet(r, e, u);
      } else {
        StepWithoutFrame(r, e);
        assert Net(r.notices, u) == |Sockets(r, u)|;
        assert Sockets(Step(r, e), u) == Sockets(r, u);
      }
    }
  }

  lemma StepSends(r: Room, e: Event)
    requires Enabled(r, e) && Sends(r, e).Some?
    ensures var frame := Sends(r, e).value;
      && frame.room == r.name && Step(r, e).frames == r.frames + [frame]
      && Step(r, e).archived == r.archived + if frame.kind == Chat then [frame] else []
  {
  }

  lemma StepArchives(r: Room, e: Event)
    requires ArchivesChats(r) && (forall f :: f in r.frames ==> f.room == r.name) && Enabled(r, e)
    ensures ArchivesChats(Step(r, e))
    ensures forall f :: f in Step(r, e).frames ==> f.room == r.name
  {
    if Sends(r, e).Some? {
      StepSends(r, e);
      ChatsLast(r.frames, Sends(r, e).value);
    } else {
      StepWithoutFrame(r, e);
    }
  }

  lemma StepInv(r: Room, e: Event)
    requires Inv(r) && Enabled(r, e)
    ensures Inv(Step(r, e)) && Step(r, e).name == r.name
  {
    StepStructure(r, e);
    StepNotified(r, e);
    StepClosedOnce(r, e);
    StepConserves(r, e);
    StepArchives(r, e);
  }

  /** Every reachable room keeps all of the above. */
  lemma {:induction false} RunInv(name: string, es: seq<Event>)
    ensures Inv(Run(name, es)) && Run(name, es).name == name
  {
    if es == [] {
      var r := NewRoom(name);
      forall u ensures Net(r.notices, u) == |Sockets(r, u)| {
        assert Sockets(r, u) == {};
      }
    } else {
      RunInv(name, es[..|es| - 1]);
      var r := Run(name, es[..|es| - 1]);
      if Enabled(r, es[|es| - 1]) {
        StepInv(r, es[|es| - 1]);
      }
    }
  }

  /** Nothing is ever written to a closed channel: what it carries is fixed from then on. */
  lemma ClosedIsFinal(r: Room, e: Event, c: ClientId)
    requires Inv(r) && Enabled(r, e) && c in r.chans && r.chans[c].closed
    ensures c in Step(r, e).chans && Step(r, e).chans[c].closed && c !in Step(r, e).clients
    ensures Step(r, e).chans[c].sent == r.chans[c].sent
  {
  }

  /**
   Never written after close: once a connection's channel is closed, at any point of a run, it
   has everything it will ever get, stays closed, and its connection never comes back.
   */
  lemma {:induction false} RunClosedIsFinal(name: string, es: seq<Event>, k: nat, c: ClientId)
    requires k <= |es| && c in Run(name, es[..k]).chans && Run(name, es[..k]).chans[c].closed
    ensures var r := Run(name, es);
      c in r.chans && r.chans[c].closed && c !in r.clients && r.chans[c].sent == Run(name, es[..k]).chans[c].sent
  {
    RunInv(name, es[..k]);
    if k == |es| {
      assert es[..k] == es;
    } else {
      var front := es[..|es| - 1];
      assert front[..k] == es[..k];
      RunClosedIsFinal(name, front, k, c);
      RunInv(name, front);
      if Enabled(Run(name, front), es[|es| - 1]) {
        ClosedIsFinal(Run(name, front), es[|es| - 1], c);
      }
    }
  }
}
