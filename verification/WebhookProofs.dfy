/** At most one delivery per event and user, and rows that never leave a final state. */
module WebhookProofs {
  import opened Decimal
  import opened Sorting
  import opened Delivery
  import opened Fanout
  import opened WebhookPipeline
  import WorkQueue

  /** The rest of a trail is a trail. */
  lemma TrailTail(records: seq<Record>)
    requires IsTrail(records) && |records| > 1
    ensures IsTrail(records[1..]) && records[0].status == Pending
  {
  }

  lemma {:induction false} MarkAll(stages: map<nat, Stage>, jobs: seq<Job>, stage: Stage)
    ensures forall id :: id in Mark(stages, jobs, stage) <==> id in stages || exists j :: j in jobs && j.id == id
    ensures forall id :: id in Mark(stages, jobs, stage) ==>
              Mark(stages, jobs, stage)[id] == stage || (id in stages && Mark(stages, jobs, stage)[id] == stages[id])
    ensures forall id :: id in stages && (forall j :: j in jobs ==> j.id != id) ==> Mark(stages, jobs, stage)[id] == stages[id]
    ensures forall j :: j in jobs ==> Mark(stages, jobs, stage)[j.id] == stage
  {
    if jobs != [] {
      MarkAll(stages, jobs[1..], stage);
      assert jobs == [jobs[0]] + jobs[1..];
      forall id ensures id in Mark(stages, jobs, stage) <==> id in stages || exists j :: j in jobs && j.id == id {
        if j :| j in jobs && j.id == id {
          assert j == jobs[0] || j in jobs[1..];
        }
        if k :| k in jobs[1..] && k.id == id {
          assert k in jobs;
        }
        assert jobs[0] in jobs;
      }
    }
  }

  /** Rows keep their key columns, and the stages of the given jobs are untouched. */
  ghost predicate Untouched(t: Table, u: Table, stages: map<nat, Stage>, stages': map<nat, Stage>, jobs: seq<Job>) {
    forall j :: j in jobs && j.id in t.rows && j.id in stages ==>
      && j.id in u.rows && u.rows[j.id].event == t.rows[j.id].event && u.rows[j.id].user == t.rows[j.id].user
      && j.id in stages' && stages'[j.id] == stages[j.id]
  }

  lemma AllAtKept(t: Table, u: Table, stages: map<nat, Stage>, stages': map<nat, Stage>, jobs: seq<Job>, stage: Stage)
    requires AllAt(t, stages, jobs, stage) && Untouched(t, u, stages, stages', jobs)
    ensures AllAt(u, stages', jobs, stage)
  {
    forall j | j in jobs ensures JobAt(u, stages', j, stage) {
      assert JobAt(t, stages, j, stage);
    }
  }

  lemma AllAtTail(t: Table, stages: map<nat, Stage>, jobs: seq<Job>, stage: Stage)
    requires AllAt(t, stages, jobs, stage) && jobs != []
    ensures AllAt(t, stages, jobs[1..], stage) && JobAt(t, stages, jobs[0], stage)
    ensures forall j :: j in jobs[1..] ==> j.id != jobs[0].id
  {
    assert jobs[0] in jobs;
    forall j | j in jobs[1..] ensures j in jobs && j.id != jobs[0].id {
    }
  }

  lemma AllAtMore(t: Table, stages: map<nat, Stage>, jobs: seq<Job>, j: Job, stage: Stage)
    requires AllAt(t, stages, jobs, stage) && JobAt(t, stages, j, stage) && forall k :: k in jobs ==> k.id != j.id
    ensures AllAt(t, stages, jobs + [j], stage)
  {
    forall a, b | 0 <= a < b < |jobs + [j]| ensures (jobs + [j])[a].id != (jobs + [j])[b].id {
      if b == |jobs| {
        assert jobs[a] in jobs;
      }
    }
  }

  // ----- steps that move no job

  predicate MovesNoJob(e: Event) {
    e.Enqueue? || e.StopAll? || e.FanTake? || e.FanSeeStop? || e.FanSeeEmpty? || e.FanListed? || e.FanDone?
    || e.SeeStop? || e.SeeEmpty?
  }

  lemma QuietInv(s: State, e: Event)
    requires Inv(s) && Enabled(s, e) && MovesNoJob(e)
    ensures Inv(Apply(s, e))
  {
    var u := Apply(s, e);
    forall w | 0 <= w < |u.trails| ensures WorkerOk(u, w) {
      assert WorkerOk(s, w);
    }
    forall id | id in u.stages ensures StageOk(u, id) {
      assert StageOk(s, id);
    }
  }

  // ----- a stage or row change that leaves every worker's job alone

  lemma WorkersKept(s: State, u: State)
    requires Inv(s) && u.deliveries.workers == s.deliveries.workers && u.trails == s.trails
    requires forall id :: id in s.table.rows ==> id in u.table.rows && u.table.rows[id] == s.table.rows[id]
    requires forall id :: id in s.stages && s.stages[id].InHand? ==> id in u.stages && u.stages[id] == s.stages[id]
    ensures forall w :: 0 <= w < |u.trails| ==> WorkerOk(u, w)
  {
    forall w | 0 <= w < |u.trails| ensures WorkerOk(u, w) {
      assert WorkerOk(s, w);
    }
  }

  lemma CallsKept(s: State, u: State)
    requires CallsOk(s) && u.deliveries.taken == s.deliveries.taken
    requires forall id :: id in s.table.rows ==> id in u.table.rows
    requires forall id :: id in s.table.rows ==>
               u.table.rows[id].event == s.table.rows[id].event && u.table.rows[id].user == s.table.rows[id].user
    requires forall id :: id in s.stages && (s.stages[id].InHand? || s.stages[id].Done?) ==>
               id in u.stages && u.stages[id] == s.stages[id]
    ensures CallsOk(u)
  {
  }

  lemma CreateInv(s: State, e: Event)
    requires Inv(s) && Enabled(s, e) && e.FanCreate?
    requires CreateIn(s.table, NewRow(s.fan.event, s.fan.todo[0].user, s.fan.todo[0].url), e.fault).1.Created?
    ensures Inv(Apply(s, e))
  {
    var hook := s.fan.todo[0];
    var row := NewRow(s.fan.event, hook.user, hook.url);
    CreateKeeps(s.table, row, e.fault);
    var (t, r) := CreateIn(s.table, row, e.fault);
    var u := Apply(s, e);
    var job := Job(r.id, s.fan.event.id, hook.user);
    assert r.id in s.stages ==> StageOk(s, r.id);
    AllAtKept(s.table, u.table, s.stages, u.stages, s.fan.got, Listed);
    AllAtMore(u.table, u.stages, s.fan.got, job, Listed);
    AllAtKept(s.table, u.table, s.stages, u.stages, s.deliveries.queued, Queued);
    WorkersKept(s, u);
    CallsKept(s, u);
    forall id | id in u.stages ensures StageOk(u, id) {
      assert id != r.id ==> StageOk(s, id);
    }
  }

  lemma DuplicateInv(s: State, e: Event)
    requires Inv(s) && Enabled(s, e) && e.FanCreate?
    requires CreateIn(s.table, NewRow(s.fan.event, s.fan.todo[0].user, s.fan.todo[0].url), e.fault).1.Duplicate?
    ensures Inv(Apply(s, e))
  {
    var u := Apply(s, e);
    assert u.table == s.table;
    WorkersKept(s, u);
    forall id | id in u.stages ensures StageOk(u, id) {
      assert StageOk(s, id);
    }
  }

  /** The fan-out gives up: the rows it already created stay pending and get no job. */
  lemma AbandonInv(s: State, u: State)
    requires Inv(s) && s.fan.Creating? && UniqueKey(u.table)
    requires forall id :: id in s.table.rows ==> id in u.table.rows && u.table.rows[id] == s.table.rows[id]
    requires u == s.(table := u.table, fan := Pushing([]), stages := Mark(s.stages, s.fan.got, Abandoned))
    ensures Inv(u)
  {
    MarkAll(s.stages, s.fan.got, Abandoned);
    forall j | j in s.fan.got ensures j.id in s.stages && s.stages[j.id] == Listed {
      assert JobAt(s.table, s.stages, j, Listed);
    }
    forall j | j in s.deliveries.queued ensures s.stages[j.id] == Queued {
      assert JobAt(s.table, s.stages, j, Queued);
    }
    AllAtKept(s.table, u.table, s.stages, u.stages, s.deliveries.queued, Queued);
    WorkersKept(s, u);
    CallsKept(s, u);
    forall id | id in u.stages ensures StageOk(u, id) {
      assert StageOk(s, id);
    }
  }

  lemma PushInv(s: State, e: Event)
    requires Inv(s) && Enabled(s, e) && e.FanPush?
    ensures Inv(Apply(s, e))
  {
    var u := Apply(s, e);
    var job := s.fan.jobs[0];
    AllAtTail(s.table, s.stages, s.fan.jobs, Listed);
    AllAtKept(s.table, u.table, s.stages, u.stages, s.fan.jobs[1..], Listed);
    forall j | j in s.deliveries.queued ensures j.id != job.id {
      assert JobAt(s.table, s.stages, j, Queued);
    }
    AllAtKept(s.table, u.table, s.stages, u.stages, s.deliveries.queued, Queued);
    if |s.deliveries.queued| < s.deliveries.capacity {
      AllAtMore(u.table, u.stages, s.deliveries.queued, job, Queued);
    }
    WorkersKept(s, u);
    CallsKept(s, u);
    forall id | id in u.stages ensures StageOk(u, id) {
      assert StageOk(s, id);
    }
  }

  /** A worker whose job is another one is unaffected by a change of one row or stage. */
  lemma OtherWorkerKept(s: State, u: State, w: nat, id: nat)
    requires w < |s.trails| && w < |s.deliveries.workers| && WorkerOk(s, w)
    requires |u.trails| == |s.trails| && |u.deliveries.workers| == |s.deliveries.workers|
    requires u.deliveries.workers[w] == s.deliveries.workers[w] && u.trails[w] == s.trails[w]
    requires id in s.stages && s.stages[id] != InHand(w)
    requires forall x :: x in s.table.rows ==> x in u.table.rows && (x != id ==> u.table.rows[x] == s.table.rows[x])
    requires forall x :: x in s.stages && x != id ==> x in u.stages && u.stages[x] == s.stages[x]
    ensures WorkerOk(u, w)
  {
  }

  lemma TakeInv(s: State, e: Event)
    requires Inv(s) && Enabled(s, e) && e.Take?
    ensures Inv(Apply(s, e))
  {
    var u := Apply(s, e);
    var job := s.deliveries.queued[0];
    AllAtTail(s.table, s.stages, s.deliveries.queued, Queued);
    AllAtKept(s.table, u.table, s.stages, u.stages, s.deliveries.queued[1..], Queued);
    forall j | j in FanJobs(s.fan) ensures j.id != job.id {
      assert JobAt(s.table, s.stages, j, Listed);
    }
    AllAtKept(s.table, u.table, s.stages, u.stages, FanJobs(s.fan), Listed);
    assert StageOk(s, job.id);
    forall w | 0 <= w < |u.trails| ensures WorkerOk(u, w) {
      assert WorkerOk(s, w);
      if w != e.worker {
        OtherWorkerKept(s, u, w, job.id);
      }
    }
    forall id | id in u.stages ensures StageOk(u, id) {
      assert StageOk(s, id);
    }
    TakeCalls(s, e);
  }

  lemma TakeCalls(s: State, e: Event)
    requires CallsOk(s) && Enabled(s, e) && e.Take? && JobAt(s.table, s.stages, s.deliveries.queued[0], Queued)
    ensures CallsOk(Apply(s, e))
  {
    var u := Apply(s, e);
    var job := s.deliveries.queued[0];
    assert u.deliveries.taken == s.deliveries.taken + [job];
    forall j | j in s.deliveries.taken ensures j.id != job.id {
    }
    forall a, b | 0 <= a < b < |u.deliveries.taken| ensures u.deliveries.taken[a].id != u.deliveries.taken[b].id {
      if b == |s.deliveries.taken| {
        assert s.deliveries.taken[a] in s.deliveries.taken;
      }
    }
  }

  /** A record that is written moves its worker one step along its trail and touches no other. */
  lemma WriteWorkers(s: State, e: Event)
    requires Inv(s) && Enabled(s, e) && e.Write?
    ensures forall w :: 0 <= w < |Apply(s, e).trails| ==> WorkerOk(Apply(s, e), w)
  {
    var u := Apply(s, e);
    var id := s.deliveries.workers[e.worker].item.id;
    assert WorkerOk(s, e.worker);
    if |s.trails[e.worker]| > 1 {
      TrailTail(s.trails[e.worker]);
    }
    RecordKeepsKeys(s.table, id, s.trails[e.worker][0]);
    forall w | 0 <= w < |u.trails| ensures WorkerOk(u, w) {
      assert WorkerOk(s, w);
      if w != e.worker {
        OtherWorkerKept(s, u, w, id);
      }
    }
  }

  lemma WriteInv(s: State, e: Event)
    requires Inv(s) && Enabled(s, e) && e.Write?
    ensures Inv(Apply(s, e))
  {
    var u := Apply(s, e);
    var id := s.deliveries.workers[e.worker].item.id;
    WriteWorkers(s, e);
    assert WorkerOk(s, e.worker);
    RecordKeepsKeys(s.table, id, s.trails[e.worker][0]);
    AllAtKept(s.table, u.table, s.stages, u.stages, FanJobs(s.fan), Listed);
    AllAtKept(s.table, u.table, s.stages, u.stages, s.deliveries.queued, Queued);
    CallsKept(s, u);
    forall x | x in u.stages ensures StageOk(u, x) {
      assert StageOk(s, x);
    }
  }

  lemma RecordKeepsKeys(t: Table, id: nat, record: Record)
    ensures var u := RecordIn(t, id, record);
      && u.rows.Keys == t.rows.Keys && u.nextId == t.nextId
      && (forall x :: x in t.rows ==> u.rows[x].event == t.rows[x].event && u.rows[x].user == t.rows[x].user)
      && (forall x :: x in t.rows && x != id ==> u.rows[x] == t.rows[x])
      && (id in t.rows ==> u.rows[id].last == record)
      && (UniqueKey(t) ==> UniqueKey(u))
  {
  }

  lemma FinishInv(s: State, e: Event)
    requires Inv(s) && Enabled(s, e) && e.Finish?
    ensures Inv(Apply(s, e))
  {
    var u := Apply(s, e);
    var id := s.deliveries.workers[e.worker].item.id;
    assert WorkerOk(s, e.worker);
    forall j | j in FanJobs(s.fan) ensures j.id != id {
      assert JobAt(s.table, s.stages, j, Listed);
    }
    forall j | j in s.deliveries.queued ensures j.id != id {
      assert JobAt(s.table, s.stages, j, Queued);
    }
    AllAtKept(s.table, u.table, s.stages, u.stages, FanJobs(s.fan), Listed);
    AllAtKept(s.table, u.table, s.stages, u.stages, s.deliveries.queued, Queued);
    forall w | 0 <= w < |u.trails| ensures WorkerOk(u, w) {
      assert WorkerOk(s, w);
      if w != e.worker {
        OtherWorkerKept(s, u, w, id);
      }
    }
    forall x | x in u.stages ensures StageOk(u, x) {
      assert StageOk(s, x);
    }
  }

  lemma ApplyInv(s: State, e: Event)
    requires Inv(s) && Enabled(s, e)
    ensures Inv(Apply(s, e))
  {
    match e
    case FanCreate(fault) =>
      var row := NewRow(s.fan.event, s.fan.todo[0].user, s.fan.todo[0].url);
      match CreateIn(s.table, row, fault).1 {
        case Created(_) => CreateInv(s, e);
        case Duplicate => DuplicateInv(s, e);
        case Broken =>
          CreateKeeps(s.table, row, fault);
          AbandonInv(s, Apply(s, e));
      }
    case FanAbort => AbandonInv(s, Apply(s, e));
    case FanPush => PushInv(s, e);
    case Take(_, _) => TakeInv(s, e);
    case Write(_, _) => WriteInv(s, e);
    case Finish(_) => FinishInv(s, e);
    case _ => QuietInv(s, e);
  }

  lemma {:induction false} RunInv(workers: nat, table: Table, es: seq<Event>)
    requires UniqueKey(table)
    ensures Inv(Run(workers, table, es))
  {
    if es != [] {
      RunInv(workers, table, es[..|es| - 1]);
      var s := Run(workers, table, es[..|es| - 1]);
      if Enabled(s, es[|es| - 1]) {
        ApplyInv(s, es[|es| - 1]);
      }
    }
  }

  /**
   At most once: in every run, no two Deliver calls are for the same event and user, however
   often the event is replayed and whatever fails.
   */
  lemma AtMostOneDelivery(workers: nat, table: Table, es: seq<Event>, a: nat, b: nat)
    requires UniqueKey(table)
    ensures var calls := Run(workers, table, es).deliveries.taken;
      a < b < |calls| ==> !(calls[a].event == calls[b].event && calls[a].user == calls[b].user)
  {
    RunInv(workers, table, es);
    var s := Run(workers, table, es);
    var calls := s.deliveries.taken;
    if a < b < |calls| {
      assert calls[a] in calls && calls[b] in calls;
    }
  }

  /** The same delivery at a later time: final rows are frozen, others only count up. */
  ghost predicate Later(a: Row, b: Row) {
    && b.(last := a.last) == a
    && a.last.attempts <= b.last.attempts
    && (a.last.status != Pending ==> b == a)
  }

  lemma RowStepMonotone(s: State, e: Event, id: nat)
    requires Inv(s) && Enabled(s, e) && id in s.table.rows
    ensures id in Apply(s, e).table.rows && Later(s.table.rows[id], Apply(s, e).table.rows[id])
  {
    if e.FanCreate? {
      CreateKeeps(s.table, NewRow(s.fan.event, s.fan.todo[0].user, s.fan.todo[0].url), e.fault);
    } else if e.Write? {
      assert WorkerOk(s, e.worker);
      RecordKeepsKeys(s.table, s.deliveries.workers[e.worker].item.id, s.trails[e.worker][0]);
    }
  }

  /**
   Monotone rows: from any point of any run to any later one, a row stays, keeps its event,
   user, room and url, never counts fewer attempts, and never leaves delivered or failed.
   */
  lemma {:induction false} RowsMonotone(workers: nat, table: Table, es: seq<Event>, k: nat, id: nat)
    requires UniqueKey(table)
    requires k <= |es| && id in Run(workers, table, es[..k]).table.rows
    ensures id in Run(workers, table, es).table.rows
    ensures Later(Run(workers, table, es[..k]).table.rows[id], Run(workers, table, es).table.rows[id])
  {
    if k == |es| {
      assert es[..k] == es;
    } else {
      var front := es[..|es| - 1];
      assert front[..k] == es[..k];
      RowsMonotone(workers, table, front, k, id);
      RunInv(workers, table, front);
      if Enabled(Run(workers, table, front), es[|es| - 1]) {
        RowStepMonotone(Run(workers, table, front), es[|es| - 1], id);
      }
    }
  }

  // ----- at most one job

  /** The job has been put to the delivery channel. */
  predicate Begun(stage: Stage) { stage.Queued? || stage.Dropped? || stage.InHand? || stage.Done? }

  ghost predicate JobBegun(s: State, j: Job) {
    && j.id in s.table.rows && s.table.rows[j.id].event == j.event && s.table.rows[j.id].user == j.user
    && j.id in s.stages && Begun(s.stages[j.id])
  }

  /** Whatever was put to the delivery channel, accepted or dropped, was put to it once. */
  ghost predicate OffersOk(s: State) {
    var jobs := WorkQueue.Items(s.deliveries.offers);
    IdsDistinct(jobs) && forall j :: j in jobs ==> JobBegun(s, j)
  }

  lemma BegunInFanout(s: State, e: Event, id: nat)
    requires Inv(s) && Enabled(s, e) && (e.FanCreate? || e.FanAbort?) && id in s.stages && Begun(s.stages[id])
    ensures id in Apply(s, e).stages && Begun(Apply(s, e).stages[id])
  {
    MarkAll(s.stages, s.fan.got, Abandoned);
    forall j | j in s.fan.got ensures j.id != id {
      assert JobAt(s.table, s.stages, j, Listed);
    }
    assert StageOk(s, id);
    if e.FanCreate? {
      CreateKeeps(s.table, NewRow(s.fan.event, s.fan.todo[0].user, s.fan.todo[0].url), e.fault);
    }
  }

  lemma BegunStays(s: State, e: Event, j: Job)
    requires Inv(s) && Enabled(s, e) && JobBegun(s, j)
    ensures JobBegun(Apply(s, e), j)
  {
    RowStepMonotone(s, e, j.id);
    if e.FanCreate? || e.FanAbort? {
      BegunInFanout(s, e, j.id);
    }
  }

  lemma PushOffers(s: State, e: Event)
    requires Inv(s) && OffersOk(s) && Enabled(s, e) && e.FanPush?
    ensures var jobs := WorkQueue.Items(s.deliveries.offers);
      && WorkQueue.Items(Apply(s, e).deliveries.offers) == jobs + [s.fan.jobs[0]]
      && IdsDistinct(jobs + [s.fan.jobs[0]]) && JobBegun(Apply(s, e), s.fan.jobs[0])
  {
    var jobs, job := WorkQueue.Items(s.deliveries.offers), s.fan.jobs[0];
    AllAtTail(s.table, s.stages, s.fan.jobs, Listed);
    WorkQueue.ItemsLast(s.deliveries.offers, WorkQueue.Offered(job, |s.deliveries.queued| < s.deliveries.capacity));
    forall a, b | 0 <= a < b < |jobs + [job]| ensures (jobs + [job])[a].id != (jobs + [job])[b].id {
      if b == |jobs| {
        assert jobs[a] in jobs;
      }
    }
  }

  lemma ApplyOffers(s: State, e: Event)
    requires Inv(s) && OffersOk(s) && Enabled(s, e)
    ensures OffersOk(Apply(s, e))
  {
    var u := Apply(s, e);
    var before, after := WorkQueue.Items(s.deliveries.offers), WorkQueue.Items(u.deliveries.offers);
    if e.FanPush? {
      PushOffers(s, e);
    }
    forall j | j in after ensures JobBegun(u, j) {
      if j in before {
        BegunStays(s, e, j);
      }
    }
  }

  lemma {:induction false} RunOffers(workers: nat, table: Table, es: seq<Event>)
    requires UniqueKey(table)
    ensures OffersOk(Run(workers, table, es))
  {
    if es != [] {
      RunOffers(workers, table, es[..|es| - 1]);
      RunInv(workers, table, es[..|es| - 1]);
      var s := Run(workers, table, es[..|es| - 1]);
      if Enabled(s, es[|es| - 1]) {
        ApplyOffers(s, es[|es| - 1]);
      }
    }
  }

  /**
   At most one job: in every run, no two jobs put to the delivery channel, whether it took or dropped
   them, are for the same event and user.
   */
  lemma AtMostOneJob(workers: nat, table: Table, es: seq<Event>, a: nat, b: nat)
    requires UniqueKey(table)
    ensures var jobs := WorkQueue.Items(Run(workers, table, es).deliveries.offers);
      a < b < |jobs| ==> !(jobs[a].event == jobs[b].event && jobs[a].user == jobs[b].user)
  {
    RunInv(workers, table, es);
    RunOffers(workers, table, es);
    var jobs := WorkQueue.Items(Run(workers, table, es).deliveries.offers);
    if a < b < |jobs| {
      assert jobs[a] in jobs && jobs[b] in jobs;
    }
  }

  // ----- every resolved delivery is accounted for

  predicate Holds(jobs: seq<Job>, id: nat) {
    exists i :: 0 <= i < |jobs| && jobs[i].id == id
  }

  /** The stage of a delivery says where its job really is. */
  ghost predicate Located(s: State, id: nat) {
    && id in s.stages
    && match s.stages[id]
       case Listed => Holds(FanJobs(s.fan), id)
       case Queued => Holds(s.deliveries.queued, id)
       case Dropped => Holds(WorkQueue.Dropped(s.deliveries.offers), id)
       case InHand(w) =>
         w < |s.deliveries.workers| && s.deliveries.workers[w].Handling? && s.deliveries.workers[w].item.id == id
       case Done => Holds(s.deliveries.handled, id)
       case Abandoned => !Holds(WorkQueue.Items(s.deliveries.offers), id)
  }

  lemma HoldsMore(jobs: seq<Job>, j: Job, id: nat)
    ensures Holds(jobs, id) ==> Holds(jobs + [j], id)
    ensures Holds(jobs + [j], j.id)
  {
    assert (jobs + [j])[|jobs|] == j;
    if i :| 0 <= i < |jobs| && jobs[i].id == id {
      assert (jobs + [j])[i].id == id;
    }
  }

  lemma HoldsTail(jobs: seq<Job>, id: nat)
    requires jobs != [] && Holds(jobs, id) && jobs[0].id != id
    ensures Holds(jobs[1..], id)
  {
    var i :| 0 <= i < |jobs| && jobs[i].id == id;
    assert jobs[1..][i - 1].id == id;
  }

  lemma AbandonedNotOffered(s: State, id: nat)
    requires OffersOk(s) && id in s.stages && s.stages[id].Abandoned?
    ensures !Holds(WorkQueue.Items(s.deliveries.offers), id)
  {
    var jobs := WorkQueue.Items(s.deliveries.offers);
    forall i | 0 <= i < |jobs| ensures jobs[i].id != id {
      assert jobs[i] in jobs;
    }
  }

  lemma CreateLocated(s: State, e: Event, id: nat)
    requires Inv(s) && Enabled(s, e) && e.FanCreate? && id in Apply(s, e).stages
    requires id in s.stages ==> Located(s, id)
    requires !Apply(s, e).stages[id].Abandoned?
    ensures Located(Apply(s, e), id)
  {
    var row := NewRow(s.fan.event, s.fan.todo[0].user, s.fan.todo[0].url);
    CreateKeeps(s.table, row, e.fault);
    var r := CreateIn(s.table, row, e.fault).1;
    if r.Created? {
      HoldsMore(s.fan.got, Job(r.id, s.fan.event.id, s.fan.todo[0].user), id);
    } else if r.Broken? {
      AbandonLocated(s, id);
    }
  }

  /** Nothing stays listed once the fan-out has given up. */
  lemma AbandonLocated(s: State, id: nat)
    requires s.fan.Creating? && id in Mark(s.stages, s.fan.got, Abandoned)
    requires forall j :: j in s.fan.got ==> j.id in s.stages
    requires id in s.stages ==> Located(s, id)
    ensures id in s.stages
    ensures Mark(s.stages, s.fan.got, Abandoned)[id] == Abandoned
            || (Mark(s.stages, s.fan.got, Abandoned)[id] == s.stages[id] && !s.stages[id].Listed?)
  {
    MarkAll(s.stages, s.fan.got, Abandoned);
    if s.stages[id].Listed? {
      var i :| 0 <= i < |s.fan.got| && s.fan.got[i].id == id;
      assert s.fan.got[i] in s.fan.got;
    }
  }

  lemma PushLocated(s: State, e: Event, id: nat)
    requires Inv(s) && Enabled(s, e) && e.FanPush? && id in s.stages && Located(s, id)
    requires !Apply(s, e).stages[id].Abandoned?
    ensures Located(Apply(s, e), id)
  {
    var job := s.fan.jobs[0];
    HoldsMore(s.deliveries.queued, job, id);
    HoldsMore(WorkQueue.Dropped(s.deliveries.offers), job, id);
    WorkQueue.SelectLast(s.deliveries.offers, WorkQueue.Offered(job, true), false);
    WorkQueue.SelectLast(s.deliveries.offers, WorkQueue.Offered(job, false), false);
    if s.stages[id].Listed? && id != job.id {
      HoldsTail(s.fan.jobs, id);
    }
  }

  lemma WorkerLocated(s: State, e: Event, id: nat)
    requires Inv(s) && Enabled(s, e) && (e.Take? || e.Finish?) && id in Apply(s, e).stages
    requires id in s.stages ==> Located(s, id)
    requires !Apply(s, e).stages[id].Abandoned?
    ensures Located(Apply(s, e), id)
  {
    if e.Take? {
      assert s.deliveries.queued[0] in s.deliveries.queued;
      assert JobAt(s.table, s.stages, s.deliveries.queued[0], Queued);
      if s.stages[id].Queued? && id != s.deliveries.queued[0].id {
        HoldsTail(s.deliveries.queued, id);
      }
    } else {
      assert WorkerOk(s, e.worker);
      HoldsMore(s.deliveries.handled, s.deliveries.workers[e.worker].item, id);
    }
  }

  lemma ApplyLocated(s: State, e: Event, id: nat)
    requires Inv(s) && Enabled(s, e) && id in Apply(s, e).stages
    requires id in s.stages ==> Located(s, id)
    requires OffersOk(Apply(s, e))
    ensures Located(Apply(s, e), id)
  {
    if Apply(s, e).stages[id].Abandoned? {
      AbandonedNotOffered(Apply(s, e), id);
    } else if e.FanCreate? {
      CreateLocated(s, e, id);
    } else if e.FanAbort? {
      forall j | j in s.fan.got ensures j.id in s.stages {
        assert JobAt(s.table, s.stages, j, Listed);
      }
      AbandonLocated(s, id);
    } else if e.FanPush? {
      PushFirstListed(s);
      PushLocated(s, e, id);
    } else if e.Take? || e.Finish? {
      WorkerLocated(s, e, id);
    } else {
      QuietLocated(s, e, id);
    }
  }

  lemma PushFirstListed(s: State)
    requires Inv(s) && s.fan.Pushing? && s.fan.jobs != []
    ensures s.fan.jobs[0].id in s.stages
  {
    AllAtTail(s.table, s.stages, s.fan.jobs, Listed);
  }

  lemma QuietLocated(s: State, e: Event, id: nat)
    requires Inv(s) && Enabled(s, e) && (MovesNoJob(e) || e.Write?) && id in s.stages && Located(s, id)
    requires !Apply(s, e).stages[id].Abandoned?
    ensures Located(Apply(s, e), id)
  {
  }

  /**
   Conservation: every delivery the fan-out resolved has been handed to Deliver (and is finished
   or in one worker's hand), is queued, was dropped on a full queue, is still being listed or
   pushed, or belongs to a fan-out that failed and was never put to the channel.
   */
  lemma {:induction false} DeliveriesAccounted(workers: nat, table: Table, es: seq<Event>, id: nat)
    requires UniqueKey(table)
    ensures id in Run(workers, table, es).stages ==> Located(Run(workers, table, es), id)
  {
    if es != [] {
      var s := Run(workers, table, es[..|es| - 1]);
      DeliveriesAccounted(workers, table, es[..|es| - 1], id);
      RunInv(workers, table, es[..|es| - 1]);
      RunOffers(workers, table, es);
      if Enabled(s, es[|es| - 1]) && id in Apply(s, es[|es| - 1]).stages {
        ApplyLocated(s, es[|es| - 1], id);
      }
    }
  }
}
