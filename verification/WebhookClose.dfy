/**
 What Close leaves undelivered. A delivery worker may find its queue empty and leave while the
 fan-out is still at work; whether a job can be stranded that way is decided by what the fan-out
 still has when no more events come in.
 */
module WebhookClose {
  import opened Decimal
  import opened Delivery
  import opened Fanout
  import opened WebhookPipeline
  import opened WebhookProofs
  import WorkQueue

  // ----- the condition

  ghost predicate HasFreshUser(table: Table, event: MessageEvent) {
    exists user: Int64 :: !Taken(table, event.id, user)
  }

  ghost predicate HasFreshHook(table: Table, event: MessageEvent, todo: seq<Recipient>) {
    exists i :: 0 <= i < |todo| && !Taken(table, event.id, todo[i].user)
  }

  ghost predicate HasFreshEvent(table: Table, queued: seq<MessageEvent>) {
    exists i :: 0 <= i < |queued| && HasFreshUser(table, queued[i])
  }

  /** The fan-out worker has not left. */
  predicate FanAlive(s: State) {
    s.events.workers != [] && !s.events.workers[0].Exited?
  }

  /**
   The fan-out can still resolve a delivery: it holds a job, is at an event with a recipient that has
   no row yet, or has such an event before it.
   */
  ghost predicate CanResolve(s: State) {
    || (s.fan.Pushing? && s.fan.jobs != [])
    || (s.fan.Creating? && (s.fan.got != [] || HasFreshHook(s.table, s.fan.event, s.fan.todo)))
    || (FanAlive(s) && HasFreshEvent(s.table, s.events.queued))
  }

  /** Nothing is left for the fan-out to resolve, and nothing is stranded yet. */
  ghost predicate NothingLeft(s: State) {
    !CanResolve(s) && (WorkQueue.AllGone(s.deliveries) ==> s.deliveries.queued == [])
  }

  ghost predicate NoEnqueue(es: seq<Event>) {
    forall i :: 0 <= i < |es| ==> !es[i].Enqueue?
  }

  // ----- the fan-out worker and what it is doing

  /** The single fan-out worker has an event in hand exactly while it is at one. */
  ghost predicate Shape(s: State) {
    && |s.events.workers| == 1 && (s.events.workers[0].Handling? <==> !s.fan.Resting?)
    && |s.trails| == |s.deliveries.workers| && s.deliveries.capacity == DELIVERY_QUEUE_SIZE
  }

  lemma ShapeKept(s: State, e: Event)
    requires Shape(s) && Enabled(s, e)
    ensures Shape(Apply(s, e)) && |Apply(s, e).trails| == |s.trails|
  {
  }

  lemma {:induction false} RunShape(workers: nat, table: Table, es: seq<Event>)
    ensures Shape(Run(workers, table, es)) && |Run(workers, table, es).trails| == workers
  {
    if es != [] {
      RunShape(workers, table, es[..|es| - 1]);
      var s := Run(workers, table, es[..|es| - 1]);
      if Enabled(s, es[|es| - 1]) {
        ShapeKept(s, es[|es| - 1]);
      }
    }
  }

  // ----- with nothing left, everything queued is attempted

  lemma RecordKeepsTaken(t: Table, id: nat, record: Record, event: string, user: Int64)
    ensures Taken(RecordIn(t, id, record), event, user) <==> Taken(t, event, user)
  {
    if x :| x in t.rows && t.rows[x].event == event && t.rows[x].user == user {
      assert RecordIn(t, id, record).rows[x].event == event;
    }
  }

  lemma WriteKeepsResolve(s: State, e: Event)
    requires Enabled(s, e) && e.Write?
    ensures CanResolve(Apply(s, e)) <==> CanResolve(s)
  {
    var u := Apply(s, e);
    forall event, user ensures Taken(u.table, event, user) <==> Taken(s.table, event, user) {
      RecordKeepsTaken(s.table, s.deliveries.workers[e.worker].item.id, s.trails[e.worker][0], event, user);
    }
    forall event ensures HasFreshUser(u.table, event) <==> HasFreshUser(s.table, event) {
    }
    assert HasFreshEvent(u.table, s.events.queued) <==> HasFreshEvent(s.table, s.events.queued);
    if s.fan.Creating? {
      assert HasFreshHook(u.table, s.fan.event, s.fan.todo) <==> HasFreshHook(s.table, s.fan.event, s.fan.todo);
    }
  }

  lemma FanStepResolvesNothing(s: State, e: Event)
    requires Shape(s) && Enabled(s, e) && !CanResolve(s)
    requires e.FanTake? || e.FanCreate? || e.FanListed? || e.FanAbort? || e.FanPush? || e.FanDone?
    ensures !CanResolve(Apply(s, e)) && Apply(s, e).deliveries == s.deliveries
  {
    var u := Apply(s, e);
    if e.FanTake? {
      assert !HasFreshUser(s.table, s.events.queued[0]);
      assert u.events.queued == s.events.queued[1..];
    } else if e.FanCreate? {
      assert Taken(s.table, s.fan.event.id, s.fan.todo[0].user);
      assert u.fan.Creating? ==> u.fan.todo == s.fan.todo[1..];
    }
  }

  lemma NothingLeftKept(s: State, e: Event)
    requires Shape(s) && NothingLeft(s) && Enabled(s, e) && !e.Enqueue?
    ensures NothingLeft(Apply(s, e))
  {
    match e
    case Write(_, _) => WriteKeepsResolve(s, e);
    case Take(w, _) => WorkQueue.StaysIn(s.deliveries, WorkQueue.Take(w));
    case Finish(w) => WorkQueue.StaysIn(s.deliveries, WorkQueue.Finish(w));
    case SeeStop(w) => WorkQueue.StaysIn(s.deliveries, WorkQueue.SeeStop(w));
    case SeeEmpty(_) =>
    case StopAll =>
    case FanSeeStop =>
    case FanSeeEmpty =>
    case _ => FanStepResolvesNothing(s, e);
  }

  lemma {:induction false} NothingLeftStays(workers: nat, table: Table, es: seq<Event>, fs: seq<Event>)
    requires NothingLeft(Run(workers, table, es)) && NoEnqueue(fs)
    ensures NothingLeft(Run(workers, table, es + fs))
  {
    if fs == [] {
      assert es + fs == es;
    } else {
      var front := fs[..|fs| - 1];
      NothingLeftStays(workers, table, es, front);
      assert (es + fs)[..|es + fs| - 1] == es + front;
      RunShape(workers, table, es + front);
      if Enabled(Run(workers, table, es + front), fs[|fs| - 1]) {
        NothingLeftKept(Run(workers, table, es + front), fs[|fs| - 1]);
      }
    }
  }

  /**
   A quiet moment is enough: if Close comes while the fan-out rests, no event waits and some delivery
   worker is still there, every queued delivery is attempted before the workers are gone.
   */
  lemma QuietClose(workers: nat, table: Table, es: seq<Event>, fs: seq<Event>)
    requires NoEnqueue(fs)
    requires var s := Run(workers, table, es);
      s.fan.Resting? && s.events.queued == [] && !WorkQueue.AllGone(s.deliveries)
    ensures var u := Run(workers, table, es + fs); WorkQueue.AllGone(u.deliveries) ==> u.deliveries.queued == []
  {
    NothingLeftStays(workers, table, es, fs);
  }

  // ----- otherwise a job can be stranded: runs of the pipeline from a state

  ghost predicate Leads(s: State, es: seq<Event>, u: State)
    decreases |es|
  {
    if es == [] then s == u else Enabled(s, es[0]) && Leads(Apply(s, es[0]), es[1..], u)
  }

  lemma {:induction false} LeadsOn(workers: nat, table: Table, done: seq<Event>, es: seq<Event>, u: State)
    requires Leads(Run(workers, table, done), es, u)
    ensures Run(workers, table, done + es) == u
    decreases |es|
  {
    if es == [] {
      assert done + es == done;
    } else {
      RunMore(workers, table, done, es[0]);
      LeadsOn(workers, table, done + [es[0]], es[1..], u);
      WorkQueue.MoveFirst(done, es);
    }
  }

  lemma RunMore(workers: nat, table: Table, es: seq<Event>, e: Event)
    requires Enabled(Run(workers, table, es), e)
    ensures Run(workers, table, es + [e]) == Apply(Run(workers, table, es), e)
  {
    assert (es + [e])[..|es|] == es;
  }

  lemma {:induction false} LeadsThrough(s: State, es: seq<Event>, t: State, fs: seq<Event>, u: State)
    requires Leads(s, es, t) && Leads(t, fs, u)
    ensures Leads(s, es + fs, u)
    decreases |es|
  {
    if es == [] {
      assert es + fs == fs;
    } else {
      LeadsThrough(Apply(s, es[0]), es[1..], t, fs, u);
      assert (es + fs)[1..] == es[1..] + fs;
    }
  }

  /** Some run without a new event leads from s to u. */
  ghost predicate Reaches(s: State, u: State) {
    exists es :: NoEnqueue(es) && Leads(s, es, u)
  }

  lemma ReachesSelf(s: State)
    ensures Reaches(s, s)
  {
    assert Leads(s, [], s);
  }

  lemma ReachesThrough(s: State, t: State, u: State)
    requires Reaches(s, t) && Reaches(t, u)
    ensures Reaches(s, u)
  {
    var es :| NoEnqueue(es) && Leads(s, es, t);
    var fs :| NoEnqueue(fs) && Leads(t, fs, u);
    LeadsThrough(s, es, t, fs, u);
    assert NoEnqueue(es + fs);
  }

  lemma ReachesBy(s: State, e: Event)
    requires Enabled(s, e) && !e.Enqueue?
    ensures Reaches(s, Apply(s, e))
  {
    assert [e][1..] == [];
    assert Leads(Apply(s, e), [], Apply(s, e));
    assert Leads(s, [e], Apply(s, e));
  }

  /** One step, and then on. */
  lemma ReachesAfter(s: State, e: Event, u: State)
    requires Enabled(s, e) && !e.Enqueue? && Reaches(Apply(s, e), u)
    ensures Reaches(s, u)
  {
    ReachesBy(s, e);
    ReachesThrough(s, Apply(s, e), u);
  }

  // ----- the delivery workers leave

  /** Only worker w and the delivery channel have moved. */
  ghost predicate OnlyWorker(s: State, u: State, w: nat) {
    && Shape(s) && Shape(u)
    && u.table == s.table && u.fan == s.fan && u.events == s.events
    && |u.deliveries.workers| == |s.deliveries.workers| && u.deliveries.stopped == s.deliveries.stopped
    && forall v :: 0 <= v < |s.deliveries.workers| && v != w ==> u.deliveries.workers[v] == s.deliveries.workers[v]
  }

  predicate Idle(s: State, w: nat) {
    w < |s.deliveries.workers| && (s.deliveries.workers[w].Selecting? || s.deliveries.workers[w].Draining?)
  }

  /** A worker gets to the end of the job in its hand; none of its records reaches the database. */
  lemma {:induction false} FinishesJob(s: State, w: nat) returns (u: State)
    requires Shape(s) && w < |s.deliveries.workers| && s.deliveries.workers[w].Handling?
    ensures Reaches(s, u) && OnlyWorker(s, u, w) && Idle(u, w)
    ensures u.deliveries.queued == s.deliveries.queued && u.deliveries.taken == s.deliveries.taken
    decreases |s.trails[w]|
  {
    if s.trails[w] == [] {
      u := Apply(s, Finish(w));
      ShapeKept(s, Finish(w));
      ReachesBy(s, Finish(w));
    } else {
      var t := Apply(s, Write(w, false));
      ShapeKept(s, Write(w, false));
      u := FinishesJob(t, w);
      ReachesAfter(s, Write(w, false), u);
    }
  }

  /** A worker takes everything queued, one job after the other. */
  lemma {:induction false} EmptiesQueue(s: State, w: nat) returns (u: State)
    requires Shape(s) && Idle(s, w)
    ensures Reaches(s, u) && OnlyWorker(s, u, w) && Idle(u, w) && u.deliveries.queued == []
    ensures u.deliveries.taken == s.deliveries.taken + s.deliveries.queued
    decreases |s.deliveries.queued|
  {
    if s.deliveries.queued == [] {
      u := s;
      ReachesSelf(s);
    } else {
      var take := Take(w, [Record(Failed, 0, None, None)]);
      var t := Apply(s, take);
      ShapeKept(s, take);
      var v := FinishesJob(t, w);
      u := EmptiesQueue(v, w);
      ReachesThrough(t, v, u);
      ReachesAfter(s, take, u);
      WorkQueue.MoveFirst(s.deliveries.taken, s.deliveries.queued);
    }
  }

  lemma LeavesFromDraining(s: State, w: nat) returns (u: State)
    requires Shape(s) && Idle(s, w) && s.deliveries.stopped && s.deliveries.queued == []
    ensures Reaches(s, u) && OnlyWorker(s, u, w) && u.deliveries.workers[w].Exited? && u.deliveries.queued == []
  {
    var t := s;
    ReachesSelf(s);
    if s.deliveries.workers[w].Selecting? {
      t := Apply(s, SeeStop(w));
      ShapeKept(s, SeeStop(w));
      ReachesBy(s, SeeStop(w));
    }
    u := Apply(t, SeeEmpty(w));
    ShapeKept(t, SeeEmpty(w));
    ReachesBy(t, SeeEmpty(w));
    ReachesThrough(s, t, u);
  }

  lemma Retires(s: State, w: nat) returns (u: State)
    requires Shape(s) && s.deliveries.stopped && w < |s.deliveries.workers| && !s.deliveries.workers[w].Exited?
    ensures Reaches(s, u) && OnlyWorker(s, u, w) && u.deliveries.workers[w].Exited? && u.deliveries.queued == []
  {
    var t := s;
    ReachesSelf(s);
    if s.deliveries.workers[w].Handling? {
      t := FinishesJob(s, w);
    }
    var v := EmptiesQueue(t, w);
    u := LeavesFromDraining(v, w);
    ReachesThrough(s, t, v);
    ReachesThrough(s, v, u);
  }

  /** Everything but the delivery channel is as it was. */
  ghost predicate OnlyDeliveries(s: State, u: State) {
    && Shape(s) && Shape(u)
    && u.table == s.table && u.fan == s.fan && u.events == s.events
    && |u.deliveries.workers| == |s.deliveries.workers| && u.deliveries.stopped == s.deliveries.stopped
  }

  /** The first n workers leave. */
  lemma {:induction false} RetireFirst(s: State, n: nat) returns (u: State)
    requires Shape(s) && s.deliveries.stopped && n <= |s.deliveries.workers|
    ensures Reaches(s, u) && OnlyDeliveries(s, u)
    ensures forall v :: 0 <= v < n ==> u.deliveries.workers[v].Exited?
  {
    if n == 0 {
      u := s;
      ReachesSelf(s);
    } else {
      var t := RetireFirst(s, n - 1);
      if t.deliveries.workers[n - 1].Exited? {
        u := t;
      } else {
        u := Retires(t, n - 1);
        ReachesThrough(s, t, u);
      }
    }
  }

  // ----- the fan-out goes on alone

  /** The delivery workers have not moved, and what was queued for them is still there. */
  ghost predicate OnlyFan(s: State, u: State) {
    && Shape(s) && Shape(u)
    && u.deliveries.workers == s.deliveries.workers && s.deliveries.queued <= u.deliveries.queued
    && (s.events.stopped ==> u.events.stopped)
  }

  predicate FanStep(e: Event) {
    e.FanTake? || e.FanCreate? || e.FanListed? || e.FanAbort? || e.FanPush? || e.FanDone? || e.FanSeeStop? || e.FanSeeEmpty?
  }

  lemma FanStepOnly(s: State, e: Event)
    requires Shape(s) && Enabled(s, e) && FanStep(e)
    ensures OnlyFan(s, Apply(s, e)) && Reaches(s, Apply(s, e))
  {
    ShapeKept(s, e);
    ReachesBy(s, e);
  }

  lemma OnlyFanThrough(s: State, t: State, u: State)
    requires OnlyFan(s, t) && OnlyFan(t, u) && Reaches(s, t) && Reaches(t, u)
    ensures OnlyFan(s, u) && Reaches(s, u)
  {
    ReachesThrough(s, t, u);
  }

  /** A job in the fan-out's hand is queued, or finds the queue already full. */
  lemma PushesJob(s: State) returns (u: State)
    requires Shape(s) && s.fan.Pushing? && s.fan.jobs != []
    ensures Reaches(s, u) && OnlyFan(s, u) && u.deliveries.queued != []
  {
    u := Apply(s, FanPush);
    FanStepOnly(s, FanPush);
  }

  /** An event with a job or a fresh recipient ends with a job to push. */
  lemma {:induction false} CreatesJob(s: State) returns (u: State)
    requires Shape(s) && s.fan.Creating? && (s.fan.got != [] || HasFreshHook(s.table, s.fan.event, s.fan.todo))
    ensures Reaches(s, u) && OnlyFan(s, u) && u.fan.Pushing? && u.fan.jobs != []
    decreases |s.fan.todo|
  {
    if s.fan.todo == [] {
      u := Apply(s, FanListed);
      FanStepOnly(s, FanListed);
    } else {
      var t := Apply(s, FanCreate(NoFault));
      FanStepOnly(s, FanCreate(NoFault));
      CreateGoesOn(s);
      u := CreatesJob(t);
      OnlyFanThrough(s, t, u);
    }
  }

  lemma CreateGoesOn(s: State)
    requires s.fan.Creating? && s.fan.todo != []
    requires s.fan.got != [] || HasFreshHook(s.table, s.fan.event, s.fan.todo)
    ensures var t := Apply(s, FanCreate(NoFault));
      && t.fan.Creating? && t.fan.todo == s.fan.todo[1..]
      && (t.fan.got != [] || HasFreshHook(t.table, t.fan.event, t.fan.todo))
  {
    var t := Apply(s, FanCreate(NoFault));
    if s.fan.got == [] && Taken(s.table, s.fan.event.id, s.fan.todo[0].user) {
      var i :| 0 <= i < |s.fan.todo| && !Taken(s.table, s.fan.event.id, s.fan.todo[i].user);
      assert t.fan.todo[i - 1] == s.fan.todo[i];
    }
  }

  /** The fan-out takes the next event and finds nobody with a webhook. */
  lemma SkipsEvent(s: State) returns (u: State)
    requires Shape(s) && s.fan.Resting? && FanAlive(s) && s.events.queued != []
    ensures Reaches(s, u) && OnlyFan(s, u) && u.fan.Resting? && FanAlive(u)
    ensures u.table == s.table && u.events.queued == s.events.queued[1..]
  {
    var t := Apply(s, FanTake([]));
    FanStepOnly(s, FanTake([]));
    var v := Apply(t, FanListed);
    FanStepOnly(t, FanListed);
    u := Apply(v, FanDone);
    FanStepOnly(v, FanDone);
    OnlyFanThrough(s, t, v);
    OnlyFanThrough(s, v, u);
  }

  /** The fan-out gets to a queued event with a fresh user, who turns out to have a webhook. */
  lemma {:induction false} TakesFreshEvent(s: State, i: nat) returns (u: State)
    requires Shape(s) && s.fan.Resting? && FanAlive(s) && i < |s.events.queued| && HasFreshUser(s.table, s.events.queued[i])
    ensures Reaches(s, u) && OnlyFan(s, u) && u.fan.Creating? && HasFreshHook(u.table, u.fan.event, u.fan.todo)
    decreases i
  {
    if i == 0 {
      var user: Int64 :| !Taken(s.table, s.events.queued[0].id, user);
      var take := FanTake([Recipient(user, "", 0)]);
      u := Apply(s, take);
      FanStepOnly(s, take);
      assert u.fan.todo[0].user == user;
    } else {
      var t := SkipsEvent(s);
      u := TakesFreshEvent(t, i - 1);
      OnlyFanThrough(s, t, u);
    }
  }

  /** A fan-out with nothing to push fails or ends, and rests. */
  lemma ComesToRest(s: State) returns (u: State)
    requires Shape(s) && (s.fan.Pushing? ==> s.fan.jobs == []) && FanAlive(s)
    ensures Reaches(s, u) && OnlyFan(s, u) && u.fan.Resting? && FanAlive(u)
    ensures u.table == s.table && u.events.queued == s.events.queued
  {
    var t := s;
    ReachesSelf(s);
    if s.fan.Creating? {
      t := Apply(s, FanAbort);
      FanStepOnly(s, FanAbort);
    }
    u := t;
    ReachesSelf(t);
    if t.fan.Pushing? {
      u := Apply(t, FanDone);
      FanStepOnly(t, FanDone);
    }
    OnlyFanThrough(s, t, u);
  }

  /** Whatever it can still resolve, the fan-out gets it queued. */
  lemma QueuesJob(s: State) returns (u: State)
    requires Shape(s) && CanResolve(s)
    ensures Reaches(s, u) && OnlyFan(s, u) && u.deliveries.queued != []
  {
    var t := s;
    ReachesSelf(s);
    if !(s.fan.Pushing? && s.fan.jobs != []) {
      if !(s.fan.Creating? && (s.fan.got != [] || HasFreshHook(s.table, s.fan.event, s.fan.todo))) {
        var r := ComesToRest(s);
        var i :| 0 <= i < |s.events.queued| && HasFreshUser(s.table, s.events.queued[i]);
        t := TakesFreshEvent(r, i);
        OnlyFanThrough(s, r, t);
      }
      var p := CreatesJob(t);
      OnlyFanThrough(s, t, p);
      t := p;
    }
    u := PushesJob(t);
    OnlyFanThrough(s, t, u);
  }

  // ----- and then leaves too

  lemma {:induction false} PushesAll(s: State) returns (u: State)
    requires Shape(s) && s.fan.Pushing?
    ensures Reaches(s, u) && OnlyFan(s, u) && u.fan == Pushing([]) && u.events == s.events
    decreases |s.fan.jobs|
  {
    if s.fan.jobs == [] {
      u := s;
      ReachesSelf(s);
    } else {
      var t := Apply(s, FanPush);
      FanStepOnly(s, FanPush);
      u := PushesAll(t);
      OnlyFanThrough(s, t, u);
    }
  }

  lemma {:induction false} SkipsAll(s: State) returns (u: State)
    requires Shape(s) && s.fan.Resting? && FanAlive(s)
    ensures Reaches(s, u) && OnlyFan(s, u) && u.fan.Resting? && FanAlive(u) && u.events.queued == []
    decreases |s.events.queued|
  {
    if s.events.queued == [] {
      u := s;
      ReachesSelf(s);
    } else {
      var t := SkipsEvent(s);
      u := SkipsAll(t);
      OnlyFanThrough(s, t, u);
    }
  }

  lemma FanLeavesIdle(s: State) returns (u: State)
    requires Shape(s) && s.fan.Resting? && FanAlive(s) && s.events.queued == [] && s.events.stopped
    ensures Reaches(s, u) && OnlyFan(s, u) && WorkQueue.AllGone(u.events)
  {
    var t := s;
    ReachesSelf(s);
    if s.events.workers[0].Selecting? {
      t := Apply(s, FanSeeStop);
      FanStepOnly(s, FanSeeStop);
    }
    u := Apply(t, FanSeeEmpty);
    FanStepOnly(t, FanSeeEmpty);
    OnlyFanThrough(s, t, u);
  }

  lemma FanLeaves(s: State) returns (u: State)
    requires Shape(s) && s.events.stopped
    ensures Reaches(s, u) && OnlyFan(s, u) && WorkQueue.AllGone(u.events)
  {
    ReachesSelf(s);
    if s.events.workers[0].Exited? {
      u := s;
    } else {
      var t := s;
      if s.fan.Pushing? {
        t := PushesAll(s);
      }
      var r := ComesToRest(t);
      OnlyFanThrough(s, t, r);
      var v := SkipsAll(r);
      OnlyFanThrough(s, r, v);
      u := FanLeavesIdle(v);
      OnlyFanThrough(s, v, u);
    }
  }

  // ----- the exact condition

  /** Both pools are gone and a job is still queued. */
  ghost predicate Stranded(s: State) {
    WorkQueue.AllGone(s.events) && WorkQueue.AllGone(s.deliveries) && s.deliveries.queued != []
  }

  /** From any state in which something is left, a shutdown without a new event can strand a job. */
  lemma StrandsFrom(s: State) returns (u: State)
    requires Shape(s) && s.deliveries.workers != [] && !NothingLeft(s)
    ensures Reaches(s, u) && Stranded(u)
  {
    var t := Apply(s, StopAll);
    ShapeKept(s, StopAll);
    ReachesBy(s, StopAll);
    var v := t;
    if CanResolve(s) {
      var r := RetireFirst(t, |t.deliveries.workers|);
      assert CanResolve(r);
      v := QueuesJob(r);
      ReachesThrough(t, r, v);
    } else {
      ReachesSelf(t);
    }
    u := FanLeaves(v);
    ReachesThrough(s, t, v);
    ReachesThrough(s, v, u);
  }

  /** No continuation without a new event ends with the delivery workers gone and a job queued. */
  ghost predicate AttemptsAll(workers: nat, table: Table, es: seq<Event>) {
    forall fs | NoEnqueue(fs) :: EndsEmpty(Run(workers, table, es + fs))
  }

  ghost predicate EndsEmpty(s: State) {
    WorkQueue.AllGone(s.deliveries) ==> s.deliveries.queued == []
  }

  /**
   The exact condition, known when Close is called: for every state a run can be in, every queued
   delivery is attempted in every continuation without a new event if and only if the fan-out has
   nothing left to resolve and nothing is stranded already.
   */
  lemma AttemptsAllIffNothingLeft(workers: nat, table: Table, es: seq<Event>)
    requires workers > 0
    ensures AttemptsAll(workers, table, es) <==> NothingLeft(Run(workers, table, es))
  {
    var s := Run(workers, table, es);
    if NothingLeft(s) {
      forall fs | NoEnqueue(fs) ensures EndsEmpty(Run(workers, table, es + fs)) {
        NothingLeftStays(workers, table, es, fs);
      }
    } else {
      RunShape(workers, table, es);
      var u := StrandsFrom(s);
      var fs :| NoEnqueue(fs) && Leads(s, fs, u);
      LeadsOn(workers, table, es, fs, u);
      assert !EndsEmpty(Run(workers, table, es + fs));
    }
  }

  /**
   A shutdown may strand a delivery: with an event accepted that has a user without a row, from any
   table and with any number of workers, some run without another event ends with everybody gone and
   a job queued whose row is as it was inserted.
   */
  lemma StrandedDelivery(workers: nat, table: Table, event: MessageEvent) returns (fs: seq<Event>)
    requires workers > 0 && UniqueKey(table) && HasFreshUser(table, event)
    ensures NoEnqueue(fs)
    ensures var s := Run(workers, table, [Enqueue(event)] + fs);
      && Stranded(s)
      && exists j :: j in s.deliveries.queued && j.id in s.table.rows && s.table.rows[j.id].last == Record(Pending, 0, None, None)
  {
    var es := [Enqueue(event)];
    var s := Run(workers, table, es);
    RunMore(workers, table, [], Enqueue(event));
    assert [] + es == es;
    RunShape(workers, table, es);
    assert s.events.queued[0] == event && HasFreshUser(s.table, s.events.queued[0]);
    var u := StrandsFrom(s);
    fs :| NoEnqueue(fs) && Leads(s, fs, u);
    LeadsOn(workers, table, es, fs, u);
    RunInv(workers, table, es + fs);
    var j := u.deliveries.queued[0];
    assert j in u.deliveries.queued;
    assert JobAt(u.table, u.stages, j, Queued) && StageOk(u, j.id);
  }
}
