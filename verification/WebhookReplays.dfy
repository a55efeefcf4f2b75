/**
 Replays. A recipient with a row is skipped as a duplicate for ever, in this process and in every
 later one on the same table; whether it ever has its Deliver call is decided by what became of the
 job made with the row.
 */
module WebhookReplays {
  import opened Decimal
  import opened Delivery
  import opened Fanout
  import opened WebhookPipeline
  import opened WebhookProofs
  import opened WebhookShutdown
  import WebhookClose
  import WorkQueue

  // ----- the stages say which rows have had their Deliver call

  lemma ItemInHand<T>(workers: seq<WorkQueue.Worker<T>>, w: nat)
    requires w < |workers| && workers[w].Handling?
    ensures workers[w].item in WorkQueue.InHand(workers)
  {
    WorkQueue.InHandAt(workers, w);
    assert workers[w].item in WorkQueue.Hand(workers[w]);
  }

  lemma TakenWhenInHandOrHandled<T>(q: WorkQueue.Queue<T>, x: T)
    requires WorkQueue.Inv(q) && (x in q.handled || x in WorkQueue.InHand(q.workers))
    ensures x in q.taken
  {
    assert x in multiset(q.handled) + multiset(WorkQueue.InHand(q.workers));
    assert x in multiset(q.taken);
  }

  /** Over every run, a row has had its Deliver call exactly when its delivery is in hand or done. */
  lemma DeliverCalledIff(workers: nat, table: Table, es: seq<Event>, id: nat)
    requires UniqueKey(table)
    ensures var s := Run(workers, table, es);
      Holds(s.deliveries.taken, id) <==> id in s.stages && (s.stages[id].InHand? || s.stages[id].Done?)
  {
    var s := Run(workers, table, es);
    var q := s.deliveries;
    RunInv(workers, table, es);
    DeliveriesAccounted(workers, table, es, id);
    DeliveriesQueueInv(workers, table, es);
    if Holds(q.taken, id) {
      var i :| 0 <= i < |q.taken| && q.taken[i].id == id;
      assert q.taken[i] in q.taken;
    }
    if id in s.stages && s.stages[id].Done? {
      var i :| 0 <= i < |q.handled| && q.handled[i].id == id;
      TakenWhenInHandOrHandled(q, q.handled[i]);
      HoldsMember(q.taken, q.handled[i]);
    } else if id in s.stages && s.stages[id].InHand? {
      var w := s.stages[id].worker;
      ItemInHand(q.workers, w);
      TakenWhenInHandOrHandled(q, q.workers[w].item);
      HoldsMember(q.taken, q.workers[w].item);
    }
  }

  lemma HoldsMember(jobs: seq<Job>, j: Job)
    requires j in jobs
    ensures Holds(jobs, j.id)
  {
    var i :| 0 <= i < |jobs| && jobs[i] == j;
  }

  lemma DeliveriesQueueInv(workers: nat, table: Table, es: seq<Event>)
    ensures WorkQueue.Inv(Run(workers, table, es).deliveries)
  {
    ChannelsAreQueues(workers, table, es);
    WorkQueue.NewQueueInv<Job>(DELIVERY_QUEUE_SIZE, workers);
    WorkQueue.RunInv(WorkQueue.NewQueue<Job>(DELIVERY_QUEUE_SIZE, workers), DeliveryRun(workers, table, es));
  }

  // ----- rows nobody will ever deliver

  /**
   A row nobody has a job for: left by an earlier process, inserted with its answer lost, of a fan-out
   that failed, or dropped on a full queue. (A queued row whose workers are gone is not among them.)
   */
  predicate Lost(s: State, id: nat) {
    id in s.table.rows && (id in s.stages ==> s.stages[id].Abandoned? || s.stages[id].Dropped?)
  }

  lemma LostInFanout(s: State, e: Event, id: nat)
    requires Inv(s) && Enabled(s, e) && (e.FanCreate? || e.FanAbort?) && Lost(s, id)
    ensures Lost(Apply(s, e), id)
  {
    MarkAll(s.stages, s.fan.got, Abandoned);
    if e.FanCreate? {
      CreateKeeps(s.table, NewRow(s.fan.event, s.fan.todo[0].user, s.fan.todo[0].url), e.fault);
    }
  }

  lemma LostStays(s: State, e: Event, id: nat)
    requires Inv(s) && Enabled(s, e) && Lost(s, id)
    ensures Lost(Apply(s, e), id)
  {
    match e
    case FanCreate(_) => LostInFanout(s, e, id);
    case FanAbort => LostInFanout(s, e, id);
    case FanPush => AllAtTail(s.table, s.stages, s.fan.jobs, Listed);
    case Take(_, _) =>
      assert s.deliveries.queued[0] in s.deliveries.queued;
      assert JobAt(s.table, s.stages, s.deliveries.queued[0], Queued);
    case Finish(w) => assert WorkerOk(s, w);
    case _ =>
  }

  lemma {:induction false} RunLost(workers: nat, table: Table, es: seq<Event>, k: nat, id: nat)
    requires UniqueKey(table) && k <= |es| && Lost(Run(workers, table, es[..k]), id)
    ensures Lost(Run(workers, table, es), id)
  {
    if k == |es| {
      assert es[..k] == es;
    } else {
      var front := es[..|es| - 1];
      assert front[..k] == es[..k];
      RunLost(workers, table, front, k, id);
      RunInv(workers, table, front);
      if Enabled(Run(workers, table, front), es[|es| - 1]) {
        LostStays(Run(workers, table, front), es[|es| - 1], id);
      }
    }
  }

  /** A Deliver call for the event and user has been made. */
  ghost predicate Called(s: State, event: string, user: Int64) {
    exists j :: j in s.deliveries.taken && j.event == event && j.user == user
  }

  /**
   Skipped for ever: once a row is lost, in no continuation, however often the event is replayed, is
   there a Deliver call for its event and user.
   */
  lemma LostNeverDelivered(workers: nat, table: Table, es: seq<Event>, k: nat, id: nat)
    requires UniqueKey(table) && k <= |es| && Lost(Run(workers, table, es[..k]), id)
    ensures var row := Run(workers, table, es[..k]).table.rows[id];
      !Called(Run(workers, table, es), row.event, row.user)
  {
    var s := Run(workers, table, es);
    RunLost(workers, table, es, k, id);
    RowsMonotone(workers, table, es, k, id);
    RunInv(workers, table, es);
    var row := s.table.rows[id];
    forall j | j in s.deliveries.taken ensures !(j.event == row.event && j.user == row.user) {
      assert j.id in s.table.rows && s.table.rows[j.id].event == j.event && s.table.rows[j.id].user == j.user;
    }
  }

  lemma FanoutBegins(s: State, event: MessageEvent, hooks: seq<Recipient>)
    requires s.fan.Resting? && s.events == WorkQueue.NewQueue<MessageEvent>(EVENT_QUEUE_SIZE, 1)
    ensures Enabled(Apply(s, Enqueue(event)), FanTake(hooks))
    ensures var t := Apply(Apply(s, Enqueue(event)), FanTake(hooks));
      t.fan == Creating(event, hooks, []) && t.table == s.table && t.stages == s.stages
  {
    assert s.events.workers == [WorkQueue.Selecting];
  }

  lemma SecondInsertFails(t: State, event: MessageEvent, first: Recipient, second: Recipient)
    requires t.table == Table(map[], 1) && t.stages == map[] && t.fan == Creating(event, [first, second], [])
    ensures Enabled(t, FanCreate(NoFault)) && Enabled(Apply(t, FanCreate(NoFault)), FanCreate(Refused))
    ensures var u := Apply(Apply(t, FanCreate(NoFault)), FanCreate(Refused));
      Lost(u, 1) && u.table.rows[1] == NewRow(event, first.user, first.url)
  {
    var v := Apply(t, FanCreate(NoFault));
    assert v.fan == Creating(event, [second], [Job(1, event.id, first.user)]);
    MarkAll(v.stages, v.fan.got, Abandoned);
    assert v.fan.got[0] in v.fan.got;
  }

  /**
   A failed fan-out leaves such a row: the first recipient's row is in, the second insert is refused.
   The replay finds a duplicate, and nobody ever calls the first recipient's webhook.
   */
  lemma FailedFanoutLosesRow(workers: nat, event: MessageEvent, first: Recipient, second: Recipient) returns (es: seq<Event>)
    ensures var s := Run(workers, Table(map[], 1), es);
      && Lost(s, 1) && s.table.rows[1] == NewRow(event, first.user, first.url)
      && forall fs :: !Called(Run(workers, Table(map[], 1), es + fs), event.id, first.user)
  {
    var table := Table(map[], 1);
    var a, b, c, d := Enqueue(event), FanTake([first, second]), FanCreate(NoFault), FanCreate(Refused);
    var s := Initial(workers, table);
    FanoutBegins(s, event, [first, second]);
    SecondInsertFails(Apply(Apply(s, a), b), event, first, second);
    es := [];
    WebhookClose.RunMore(workers, table, es, a);
    es := es + [a];
    WebhookClose.RunMore(workers, table, es, b);
    es := es + [b];
    WebhookClose.RunMore(workers, table, es, c);
    es := es + [c];
    WebhookClose.RunMore(workers, table, es, d);
    es := es + [d];
    forall fs ensures !Called(Run(workers, table, es + fs), event.id, first.user) {
      assert (es + fs)[..|es|] == es;
      LostNeverDelivered(workers, table, es + fs, |es|, 1);
    }
  }

  /** A process never delivers to anybody who already had a row when it started. */
  lemma PersistedNeverDelivered(workers: nat, table: Table, es: seq<Event>, event: string, user: Int64)
    requires UniqueKey(table) && Taken(table, event, user)
    ensures !Called(Run(workers, table, es), event, user)
  {
    var id :| id in table.rows && table.rows[id].event == event && table.rows[id].user == user;
    assert es[..0] == [];
    LostNeverDelivered(workers, table, es, 0, id);
  }

  // ----- exactly which rows will never have their call

  /** With nobody left, no step takes anything. */
  lemma NobodyTakes(s: State, e: Event)
    requires WorkQueue.NobodyLeft(s.deliveries) && Enabled(s, e)
    ensures WorkQueue.NobodyLeft(Apply(s, e).deliveries) && Apply(s, e).deliveries.taken == s.deliveries.taken
  {
  }

  lemma {:induction false} NobodyTakesAfter(workers: nat, table: Table, es: seq<Event>, fs: seq<Event>)
    requires WorkQueue.NobodyLeft(Run(workers, table, es).deliveries)
    ensures WorkQueue.NobodyLeft(Run(workers, table, es + fs).deliveries)
    ensures Run(workers, table, es + fs).deliveries.taken == Run(workers, table, es).deliveries.taken
  {
    if fs == [] {
      assert es + fs == es;
    } else {
      var front := fs[..|fs| - 1];
      NobodyTakesAfter(workers, table, es, front);
      assert (es + fs)[..|es + fs| - 1] == es + front;
      if Enabled(Run(workers, table, es + front), fs[|fs| - 1]) {
        NobodyTakes(Run(workers, table, es + front), fs[|fs| - 1]);
      }
    }
  }

  /** A free worker with an empty queue before it. */
  ghost predicate Waiting(s: State, w: nat) {
    WebhookClose.Shape(s) && WebhookClose.Idle(s, w) && s.deliveries.queued == []
  }

  /** A worker that has not left frees itself and takes whatever is queued. */
  lemma FreesWorker(s: State, w: nat) returns (u: State)
    requires WebhookClose.Shape(s) && w < |s.deliveries.workers| && !s.deliveries.workers[w].Exited?
    ensures WebhookClose.Reaches(s, u) && Waiting(u, w) && u.fan == s.fan
    ensures u.deliveries.taken == s.deliveries.taken + s.deliveries.queued
  {
    var t := s;
    WebhookClose.ReachesSelf(s);
    if s.deliveries.workers[w].Handling? {
      t := WebhookClose.FinishesJob(s, w);
    }
    u := WebhookClose.EmptiesQueue(t, w);
    WebhookClose.ReachesThrough(s, t, u);
  }

  /** The fan-out gets through its recipients without a fault and keeps the jobs it has. */
  lemma {:induction false} ListsAll(s: State, w: nat) returns (u: State)
    requires Waiting(s, w) && s.fan.Creating?
    ensures WebhookClose.Reaches(s, u) && Waiting(u, w) && u.fan.Pushing? && s.fan.got <= u.fan.jobs
    decreases |s.fan.todo|
  {
    if s.fan.todo == [] {
      u := Apply(s, FanListed);
      WebhookClose.FanStepOnly(s, FanListed);
    } else {
      var t := Apply(s, FanCreate(NoFault));
      WebhookClose.FanStepOnly(s, FanCreate(NoFault));
      u := ListsAll(t, w);
      WebhookClose.ReachesThrough(s, t, u);
    }
  }

  /** Pushed one at a time, with the worker taking each, every job gets its call. */
  lemma {:induction false} PushesAndTakes(s: State, w: nat, i: nat) returns (u: State)
    requires Waiting(s, w) && s.fan.Pushing? && i < |s.fan.jobs|
    ensures WebhookClose.Reaches(s, u) && s.fan.jobs[i] in u.deliveries.taken
    decreases i
  {
    var job := s.fan.jobs[0];
    var t := Apply(s, FanPush);
    WebhookClose.FanStepOnly(s, FanPush);
    assert t.deliveries.queued == [job];
    var v := WebhookClose.EmptiesQueue(t, w);
    WebhookClose.ReachesThrough(s, t, v);
    assert v.deliveries.taken == t.deliveries.taken + [job];
    if i == 0 {
      u := v;
    } else {
      u := PushesAndTakes(v, w, i - 1);
      WebhookClose.ReachesThrough(s, v, u);
    }
  }

  /** A job that is queued or with the fan-out can still get its call while a worker is left. */
  lemma CanBeTaken(s: State, w: nat, j: Job) returns (u: State)
    requires WebhookClose.Shape(s) && w < |s.deliveries.workers| && !s.deliveries.workers[w].Exited?
    requires j in s.deliveries.queued || j in FanJobs(s.fan)
    ensures WebhookClose.Reaches(s, u) && j in u.deliveries.taken
  {
    u := FreesWorker(s, w);
    if j !in s.deliveries.queued {
      var t := u;
      if s.fan.Creating? {
        t := ListsAll(u, w);
        WebhookClose.ReachesThrough(s, u, t);
      }
      var i :| 0 <= i < |t.fan.jobs| && t.fan.jobs[i] == j;
      u := PushesAndTakes(t, w, i);
      WebhookClose.ReachesThrough(s, t, u);
    }
  }

  lemma HoldsIsCalled(s: State, id: nat)
    requires CallsOk(s) && id in s.table.rows
    ensures Holds(s.deliveries.taken, id) ==> Called(s, s.table.rows[id].event, s.table.rows[id].user)
  {
    if Holds(s.deliveries.taken, id) {
      var i :| 0 <= i < |s.deliveries.taken| && s.deliveries.taken[i].id == id;
      assert s.deliveries.taken[i] in s.deliveries.taken;
    }
  }

  /** A row that is not lost and has had no call has a job, queued or with the fan-out. */
  lemma HasJob(workers: nat, table: Table, es: seq<Event>, id: nat) returns (j: Job)
    requires UniqueKey(table) && id in Run(workers, table, es).table.rows && !Lost(Run(workers, table, es), id)
    requires var s := Run(workers, table, es); !Called(s, s.table.rows[id].event, s.table.rows[id].user)
    ensures var s := Run(workers, table, es);
      && (j in s.deliveries.queued || j in FanJobs(s.fan))
      && j.event == s.table.rows[id].event && j.user == s.table.rows[id].user
  {
    var s := Run(workers, table, es);
    RunInv(workers, table, es);
    DeliveriesAccounted(workers, table, es, id);
    DeliverCalledIff(workers, table, es, id);
    HoldsIsCalled(s, id);
    var jobs, stage := if s.stages[id].Queued? then s.deliveries.queued else FanJobs(s.fan), s.stages[id];
    var i :| 0 <= i < |jobs| && jobs[i].id == id;
    j := jobs[i];
    assert j in jobs;
    assert JobAt(s.table, s.stages, j, stage);
  }

  lemma CallPossible(workers: nat, table: Table, es: seq<Event>, id: nat) returns (fs: seq<Event>)
    requires UniqueKey(table) && id in Run(workers, table, es).table.rows && !Lost(Run(workers, table, es), id)
    requires !WorkQueue.NobodyLeft(Run(workers, table, es).deliveries)
    ensures var row := Run(workers, table, es).table.rows[id]; Called(Run(workers, table, es + fs), row.event, row.user)
  {
    var s := Run(workers, table, es);
    var row := s.table.rows[id];
    if Called(s, row.event, row.user) {
      fs := [];
      assert es + fs == es;
    } else {
      var j := HasJob(workers, table, es, id);
      WebhookClose.RunShape(workers, table, es);
      var w :| 0 <= w < |s.deliveries.workers| && !s.deliveries.workers[w].Exited?;
      var u := CanBeTaken(s, w, j);
      fs :| WebhookClose.NoEnqueue(fs) && WebhookClose.Leads(s, fs, u);
      WebhookClose.LeadsOn(workers, table, es, fs, u);
      assert Called(u, row.event, row.user);
    }
  }

  /** In no continuation, with whatever events and replays, is there a Deliver call for the row. */
  ghost predicate NeverCalled(workers: nat, table: Table, es: seq<Event>, row: Row) {
    forall fs :: !Called(Run(workers, table, es + fs), row.event, row.user)
  }

  /**
   The exact condition: a row never gets its Deliver call, in this process, if and only if nobody has a
   job for it, or all delivery workers have left before it was called.
   */
  lemma NeverCalledIff(workers: nat, table: Table, es: seq<Event>, id: nat)
    requires UniqueKey(table) && id in Run(workers, table, es).table.rows
    ensures var s := Run(workers, table, es);
      var row := s.table.rows[id];
      NeverCalled(workers, table, es, row)
      <==> Lost(s, id) || (WorkQueue.NobodyLeft(s.deliveries) && !Called(s, row.event, row.user))
  {
    var s := Run(workers, table, es);
    var row := s.table.rows[id];
    if Lost(s, id) {
      forall fs ensures !Called(Run(workers, table, es + fs), row.event, row.user) {
        assert (es + fs)[..|es|] == es;
        LostNeverDelivered(workers, table, es + fs, |es|, id);
      }
    } else if WorkQueue.NobodyLeft(s.deliveries) {
      forall fs ensures Called(Run(workers, table, es + fs), row.event, row.user) == Called(s, row.event, row.user) {
        NobodyTakesAfter(workers, table, es, fs);
      }
      assert es + [] == es;
    } else {
      var fs := CallPossible(workers, table, es, id);
    }
  }
}
