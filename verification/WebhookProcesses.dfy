/**
 Any number of notification services on one database: processes start at any time with their own
 queues and workers, overlap, crash (they just stop stepping) and are replaced. Only the table and its
 unique key hold them together.
 */
module WebhookProcesses {
  import opened Decimal
  import opened Delivery
  import opened Fanout
  import P = WebhookPipeline
  import WebhookProofs
  import WorkQueue

  type State = P.State
  type Job = P.Job

  /** The table, and each process with its own queues, workers and trails. */
  datatype World = World(table: Table, procs: map<nat, State>)

  /** A process as it sees the database now. */
  function View(w: World, p: nat): State
    requires p in w.procs
  {
    w.procs[p].(table := w.table)
  }

  datatype Event = Start(p: nat, workers: nat) | Step(p: nat, event: P.Event)

  ghost predicate Enabled(w: World, e: Event) {
    match e
    case Start(p, _) => p !in w.procs
    case Step(p, event) => p in w.procs && P.Enabled(View(w, p), event)
  }

  ghost function Apply(w: World, e: Event): World
    requires Enabled(w, e)
  {
    match e
    case Start(p, workers) => w.(procs := w.procs[p := P.Initial(workers, w.table)])
    case Step(p, event) =>
      var after := P.Apply(View(w, p), event);
      World(after.table, w.procs[p := after])
  }

  ghost function Run(table: Table, es: seq<Event>): World {
    if es == [] then World(table, map[])
    else
      var w := Run(table, es[..|es| - 1]);
      if Enabled(w, es[|es| - 1]) then Apply(w, es[|es| - 1]) else w
  }

  /** A process starts with its own empty queues and idle workers, whatever the others are doing. */
  lemma StartDoes(table: Table, es: seq<Event>, p: nat, workers: nat)
    requires p !in Run(table, es).procs
    ensures var w, u := Run(table, es), Run(table, es + [Start(p, workers)]);
      && u.table == w.table && u.procs.Keys == w.procs.Keys + {p} && (forall q :: q in w.procs ==> u.procs[q] == w.procs[q])
      && |u.procs[p].deliveries.workers| == workers && u.procs[p].deliveries.queued == [] && u.procs[p].deliveries.taken == []
      && (forall i :: 0 <= i < workers ==> u.procs[p].deliveries.workers[i].Selecting?)
      && u.procs[p].events.queued == [] && u.procs[p].fan.Resting?
  {
    assert (es + [Start(p, workers)])[..|es|] == es;
  }

  /** A step of a process is the pipeline's step on the common table, and moves no other process. */
  lemma StepDoes(table: Table, es: seq<Event>, p: nat, event: P.Event)
    requires p in Run(table, es).procs && P.Enabled(View(Run(table, es), p), event)
    ensures var w, u := Run(table, es), Run(table, es + [Step(p, event)]);
      && p in u.procs && View(u, p) == P.Apply(View(w, p), event)
      && u.procs.Keys == w.procs.Keys && (forall q :: q in w.procs && q != p ==> u.procs[q] == w.procs[q])
  {
    assert (es + [Step(p, event)])[..|es|] == es;
  }

  // ----- the invariant: every process is sound, and no two resolved the same row

  ghost predicate ProcOk(s: State) {
    P.Inv(s) && WebhookProofs.OffersOk(s)
  }

  ghost predicate Apart(w: World) {
    forall p, q, id :: p in w.procs && q in w.procs && id in w.procs[p].stages && id in w.procs[q].stages ==> p == q
  }

  ghost predicate Inv(w: World) {
    && UniqueKey(w.table)
    && (forall p :: p in w.procs ==> ProcOk(View(w, p)))
    && Apart(w)
  }

  /** What a process knows survives any change of rows it has not resolved itself. */
  lemma OtherRowsMayChange(s: State, t: Table)
    requires ProcOk(s) && UniqueKey(t)
    requires forall id :: id in s.stages ==> id in t.rows && id in s.table.rows && t.rows[id] == s.table.rows[id]
    ensures ProcOk(s.(table := t))
  {
    var u := s.(table := t);
    WebhookProofs.AllAtKept(s.table, t, s.stages, s.stages, P.FanJobs(s.fan), P.Listed);
    WebhookProofs.AllAtKept(s.table, t, s.stages, s.stages, s.deliveries.queued, P.Queued);
    forall w | 0 <= w < |u.trails| ensures P.WorkerOk(u, w) {
      assert P.WorkerOk(s, w);
    }
    forall id | id in u.stages ensures P.StageOk(u, id) {
      assert P.StageOk(s, id);
    }
    var jobs := WorkQueue.Items(s.deliveries.offers);
    forall j | j in jobs ensures WebhookProofs.JobBegun(u, j) {
      assert WebhookProofs.JobBegun(s, j);
    }
  }

  /** A step changes no row the process has not resolved, and resolves only rows it inserts. */
  lemma TouchesOwnRows(s: State, e: P.Event, id: nat)
    requires P.Inv(s) && P.Enabled(s, e)
    ensures id in s.table.rows ==> id in P.Apply(s, e).table.rows
    ensures id in s.table.rows && id !in s.stages ==>
              P.Apply(s, e).table.rows[id] == s.table.rows[id] && id !in P.Apply(s, e).stages
  {
    if id in s.table.rows {
      WebhookProofs.RowStepMonotone(s, e, id);
    }
    match e
    case FanCreate(fault) =>
      CreateKeeps(s.table, NewRow(s.fan.event, s.fan.todo[0].user, s.fan.todo[0].url), fault);
      MarkedWereListed(s, id);
    case FanAbort => MarkedWereListed(s, id);
    case FanPush => WebhookProofs.AllAtTail(s.table, s.stages, s.fan.jobs, P.Listed);
    case Take(_, _) =>
      assert s.deliveries.queued[0] in s.deliveries.queued;
      assert P.JobAt(s.table, s.stages, s.deliveries.queued[0], P.Queued);
    case Write(w, _) =>
      assert P.WorkerOk(s, w);
      WebhookProofs.RecordKeepsKeys(s.table, s.deliveries.workers[w].item.id, s.trails[w][0]);
    case Finish(w) => assert P.WorkerOk(s, w);
    case _ =>
  }

  lemma MarkedWereListed(s: State, id: nat)
    requires P.Inv(s) && s.fan.Creating?
    ensures id in P.Mark(s.stages, s.fan.got, P.Abandoned) <==> id in s.stages
  {
    WebhookProofs.MarkAll(s.stages, s.fan.got, P.Abandoned);
    forall j | j in s.fan.got ensures j.id in s.stages {
      assert P.JobAt(s.table, s.stages, j, P.Listed);
    }
  }

  lemma StepInv(w: World, e: Event)
    requires Inv(w) && Enabled(w, e) && e.Step?
    ensures Inv(Apply(w, e))
  {
    var s, u := View(w, e.p), Apply(w, e);
    WebhookProofs.ApplyInv(s, e.event);
    WebhookProofs.ApplyOffers(s, e.event);
    forall q | q in u.procs ensures ProcOk(View(u, q)) {
      if q != e.p {
        forall id | id in w.procs[q].stages
          ensures id in u.table.rows && id in w.table.rows && u.table.rows[id] == w.table.rows[id]
        {
          assert P.StageOk(View(w, q), id);
          TouchesOwnRows(s, e.event, id);
        }
        OtherRowsMayChange(View(w, q), u.table);
      }
    }
    StepApart(w, e);
  }

  lemma StepApart(w: World, e: Event)
    requires Inv(w) && Enabled(w, e) && e.Step?
    ensures Apart(Apply(w, e))
  {
    var s, u := View(w, e.p), Apply(w, e);
    forall q, id | q in w.procs && q != e.p && id in w.procs[q].stages ensures id !in u.procs[e.p].stages {
      assert P.StageOk(View(w, q), id);
      TouchesOwnRows(s, e.event, id);
    }
  }

  lemma StartInv(w: World, e: Event)
    requires Inv(w) && Enabled(w, e) && e.Start?
    ensures Inv(Apply(w, e))
  {
    var u := Apply(w, e);
    forall q | q in u.procs ensures ProcOk(View(u, q)) {
      assert q != e.p ==> View(u, q) == View(w, q);
    }
  }

  lemma {:induction false} RunInv(table: Table, es: seq<Event>)
    requires UniqueKey(table)
    ensures Inv(Run(table, es))
  {
    if es != [] {
      RunInv(table, es[..|es| - 1]);
      var w := Run(table, es[..|es| - 1]);
      if Enabled(w, es[|es| - 1]) {
        if es[|es| - 1].Start? {
          StartInv(w, es[|es| - 1]);
        } else {
          StepInv(w, es[|es| - 1]);
        }
      }
    }
  }

  lemma SameRow(w: World, p: nat, a: Job, q: nat, b: Job)
    requires Inv(w) && p in w.procs && q in w.procs && a.event == b.event && a.user == b.user
    requires WebhookProofs.JobBegun(View(w, p), a) && WebhookProofs.JobBegun(View(w, q), b)
    ensures p == q && a.id == b.id
  {
  }

  /**
   At most one job, and so one Deliver call, per event and user over all processes that ever run on the
   table, however they overlap: no two jobs put to any delivery channel are for the same event and user.
   */
  lemma AtMostOneJobAcrossProcesses(table: Table, es: seq<Event>, p: nat, x: nat, q: nat, y: nat)
    requires UniqueKey(table)
    ensures var w := Run(table, es);
      p in w.procs && q in w.procs ==>
        var a, b := WorkQueue.Items(w.procs[p].deliveries.offers), WorkQueue.Items(w.procs[q].deliveries.offers);
        x < |a| && y < |b| && a[x].event == b[y].event && a[x].user == b[y].user ==> p == q && x == y
  {
    RunInv(table, es);
    var w := Run(table, es);
    if p in w.procs && q in w.procs {
      var a, b := WorkQueue.Items(w.procs[p].deliveries.offers), WorkQueue.Items(w.procs[q].deliveries.offers);
      if x < |a| && y < |b| && a[x].event == b[y].event && a[x].user == b[y].user {
        assert ProcOk(View(w, p)) && ProcOk(View(w, q));
        assert a[x] in a && b[y] in b;
        SameRow(w, p, a[x], q, b[y]);
      }
    }
  }

  /** The same of the Deliver calls themselves. */
  lemma AtMostOnceAcrossProcesses(table: Table, es: seq<Event>, p: nat, x: nat, q: nat, y: nat)
    requires UniqueKey(table)
    ensures var w := Run(table, es);
      p in w.procs && q in w.procs ==>
        var a, b := w.procs[p].deliveries.taken, w.procs[q].deliveries.taken;
        x < |a| && y < |b| && a[x].event == b[y].event && a[x].user == b[y].user ==> p == q && x == y
  {
    RunInv(table, es);
    var w := Run(table, es);
    if p in w.procs && q in w.procs {
      var a, b := w.procs[p].deliveries.taken, w.procs[q].deliveries.taken;
      if x < |a| && y < |b| && a[x].event == b[y].event && a[x].user == b[y].user {
        assert ProcOk(View(w, p)) && ProcOk(View(w, q));
        assert a[x] in a && b[y] in b;
        SameRow(w, p, a[x], q, b[y]);
      }
    }
  }
}
