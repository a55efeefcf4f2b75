/**
 The webhook pipeline: events are queued, one fan-out worker turns each into delivery rows
 and jobs, and a pool of delivery workers runs the jobs, writing each row's audit trail. All
 of it interleaves; events may be replayed, the presence service and the database may fail,
 and the dispatcher may be shut down at any point.
 */
module WebhookPipeline {
  import opened Decimal
  import opened Sorting
  import opened Delivery
  import opened Fanout
  import WorkQueue

  const EVENT_QUEUE_SIZE: nat := 256
  const DELIVERY_QUEUE_SIZE: nat := 1024

  datatype Job = Job(id: nat, event: string, user: Int64)

  /** What the single fan-out worker is doing. */
  datatype Fan =
    | Resting
    | Creating(event: MessageEvent, todo: seq<Recipient>, got: seq<Job>)
    | Pushing(jobs: seq<Job>)

  /** Where a resolved delivery is; a worker's number says in whose hand. */
  datatype Stage = Listed | Queued | Dropped | InHand(worker: nat) | Done | Abandoned

  datatype State = State(
    table: Table,
    events: WorkQueue.Queue<MessageEvent>,
    fan: Fan,
    deliveries: WorkQueue.Queue<Job>,
    trails: seq<seq<Record>>,
    stages: map<nat, Stage>)

  /** A process starts with empty channels and idle workers, on whatever rows earlier ones left. */
  function Initial(workers: nat, table: Table): State {
    State(table, WorkQueue.NewQueue(EVENT_QUEUE_SIZE, 1), Resting,
          WorkQueue.NewQueue(DELIVERY_QUEUE_SIZE, workers), seq(workers, i => []), map[])
  }

  datatype Event =
    | Enqueue(event: MessageEvent)
    | StopAll
    | FanTake(webhooks: seq<Recipient>)   // the webhooks the fan-out will find, users and urls
    | FanSeeStop
    | FanSeeEmpty
    | FanCreate(fault: Fault)
    | FanListed
    | FanAbort
    | FanPush
    | FanDone
    | Take(worker: nat, trail: seq<Record>)
    | Write(worker: nat, reachable: bool)
    | Finish(worker: nat)
    | SeeStop(worker: nat)
    | SeeEmpty(worker: nat)

  ghost predicate Enabled(s: State, e: Event) {
    match e
    case Enqueue(_) => true
    case StopAll => true
    case FanTake(_) => s.fan.Resting? && WorkQueue.Enabled(s.events, WorkQueue.Take(0))
    case FanSeeStop => s.fan.Resting? && WorkQueue.Enabled(s.events, WorkQueue.SeeStop(0))
    case FanSeeEmpty => s.fan.Resting? && WorkQueue.Enabled(s.events, WorkQueue.SeeEmpty(0))
    case FanCreate(_) => s.fan.Creating? && s.fan.todo != []
    case FanListed => s.fan.Creating? && s.fan.todo == []
    case FanAbort => s.fan.Creating?
    case FanPush => s.fan.Pushing? && s.fan.jobs != []
    case FanDone => s.fan.Pushing? && s.fan.jobs == [] && WorkQueue.Enabled(s.events, WorkQueue.Finish(0))
    case Take(w, trail) => w < |s.trails| && WorkQueue.Enabled(s.deliveries, WorkQueue.Take(w)) && IsTrail(trail)
    case Write(w, _) =>
      w < |s.trails| && w < |s.deliveries.workers| && s.deliveries.workers[w].Handling? && s.trails[w] != []
    case Finish(w) => w < |s.trails| && s.trails[w] == [] && WorkQueue.Enabled(s.deliveries, WorkQueue.Finish(w))
    case SeeStop(w) => WorkQueue.Enabled(s.deliveries, WorkQueue.SeeStop(w))
    case SeeEmpty(w) => WorkQueue.Enabled(s.deliveries, WorkQueue.SeeEmpty(w))
  }

  function Mark(stages: map<nat, Stage>, jobs: seq<Job>, stage: Stage): map<nat, Stage> {
    if jobs == [] then stages else Mark(stages, jobs[1..], stage)[jobs[0].id := stage]
  }

  ghost function Apply(s: State, e: Event): State
    requires Enabled(s, e)
  {
    match e
    case Enqueue(event) => s.(events := WorkQueue.Send(s.events, event))
    case StopAll =>
      s.(events := WorkQueue.Apply(s.events, WorkQueue.Stop), deliveries := WorkQueue.Apply(s.deliveries, WorkQueue.Stop))
    case FanTake(webhooks) =>
      s.(events := WorkQueue.Apply(s.events, WorkQueue.Take(0)), fan := Creating(s.events.queued[0], webhooks, []))
    case FanSeeStop => s.(events := WorkQueue.Apply(s.events, WorkQueue.SeeStop(0)))
    case FanSeeEmpty => s.(events := WorkQueue.Apply(s.events, WorkQueue.SeeEmpty(0)))
    case FanCreate(fault) =>
      var hook := s.fan.todo[0];
      var (t, r) := CreateIn(s.table, NewRow(s.fan.event, hook.user, hook.url), fault);
      if r.Created? then
        var job := Job(r.id, s.fan.event.id, hook.user);
        s.(table := t, fan := s.fan.(todo := s.fan.todo[1..], got := s.fan.got + [job]), stages := s.stages[r.id := Listed])
      else if r.Duplicate? then s.(table := t, fan := s.fan.(todo := s.fan.todo[1..]))
      else s.(table := t, fan := Pushing([]), stages := Mark(s.stages, s.fan.got, Abandoned))
    case FanListed => s.(fan := Pushing(s.fan.got))
    case FanAbort => s.(fan := Pushing([]), stages := Mark(s.stages, s.fan.got, Abandoned))
    case FanPush =>
      var job := s.fan.jobs[0];
      s.(deliveries := WorkQueue.Send(s.deliveries, job), fan := Pushing(s.fan.jobs[1..]),
         stages := s.stages[job.id := if |s.deliveries.queued| < s.deliveries.capacity then Queued else Dropped])
    case FanDone => s.(events := WorkQueue.Apply(s.events, WorkQueue.Finish(0)), fan := Resting)
    case Take(w, trail) =>
      s.(deliveries := WorkQueue.Apply(s.deliveries, WorkQueue.Take(w)), trails := s.trails[w := trail],
         stages := s.stages[s.deliveries.queued[0].id := InHand(w)])
    case Write(w, reachable) =>
      s.(table := if reachable then RecordIn(s.table, s.deliveries.workers[w].item.id, s.trails[w][0]) else s.table,
         trails := s.trails[w := s.trails[w][1..]])
    case Finish(w) =>
      s.(deliveries := WorkQueue.Apply(s.deliveries, WorkQueue.Finish(w)),
         stages := s.stages[s.deliveries.workers[w].item.id := Done])
    case SeeStop(w) => s.(deliveries := WorkQueue.Apply(s.deliveries, WorkQueue.SeeStop(w)))
    case SeeEmpty(w) => s.(deliveries := WorkQueue.Apply(s.deliveries, WorkQueue.SeeEmpty(w)))
  }

  ghost function Run(workers: nat, table: Table, es: seq<Event>): State {
    if es == [] then Initial(workers, table)
    else
      var s := Run(workers, table, es[..|es| - 1]);
      if Enabled(s, es[|es| - 1]) then Apply(s, es[|es| - 1]) else s
  }

  // ----- the invariant

  /** The job belongs to the row of that id, and is where the stage says. */
  ghost predicate JobAt(table: Table, stages: map<nat, Stage>, j: Job, stage: Stage) {
    && j.id in table.rows && table.rows[j.id].event == j.event && table.rows[j.id].user == j.user
    && j.id in stages && stages[j.id] == stage
  }

  predicate IdsDistinct(jobs: seq<Job>) {
    forall i, j :: 0 <= i < j < |jobs| ==> jobs[i].id != jobs[j].id
  }

  /** All jobs of a list are distinct and at one stage. */
  ghost predicate AllAt(table: Table, stages: map<nat, Stage>, jobs: seq<Job>, stage: Stage) {
    IdsDistinct(jobs) && forall j :: j in jobs ==> JobAt(table, stages, j, stage)
  }

  function FanJobs(fan: Fan): seq<Job> {
    match fan
    case Resting => []
    case Creating(_, _, got) => got
    case Pushing(jobs) => jobs
  }

  /** A worker with a job holds it alone, and until its trail is written the row is not final. */
  ghost predicate WorkerOk(s: State, w: nat)
    requires w < |s.trails| && w < |s.deliveries.workers|
  {
    if s.deliveries.workers[w].Handling? then
      && JobAt(s.table, s.stages, s.deliveries.workers[w].item, InHand(w))
      && (s.trails[w] != [] ==>
           var last := s.table.rows[s.deliveries.workers[w].item.id].last;
           IsTrail(s.trails[w]) && last.status == Pending && last.attempts <= s.trails[w][0].attempts)
    else s.trails[w] == []
  }

  /** A delivery nobody has begun has its row as inserted. */
  ghost predicate StageOk(s: State, id: nat) {
    && id in s.table.rows && id in s.stages
    && (s.stages[id].Listed? || s.stages[id].Queued? || s.stages[id].Dropped? || s.stages[id].Abandoned? ==>
         s.table.rows[id].last == Record(Pending, 0, None, None))
    && (s.stages[id].InHand? ==> s.stages[id].worker < |s.deliveries.workers|)
  }

  /** Every Deliver call so far was for its own row. */
  ghost predicate CallsOk(s: State) {
    && IdsDistinct(s.deliveries.taken)
    && forall j :: j in s.deliveries.taken ==>
         && j.id in s.table.rows && s.table.rows[j.id].event == j.event && s.table.rows[j.id].user == j.user
         && j.id in s.stages && (s.stages[j.id].InHand? || s.stages[j.id].Done?)
  }

  ghost predicate Inv(s: State) {
    && UniqueKey(s.table)
    && AllAt(s.table, s.stages, FanJobs(s.fan), Listed)
    && AllAt(s.table, s.stages, s.deliveries.queued, Queued)
    && |s.trails| == |s.deliveries.workers|
    && (forall w :: 0 <= w < |s.trails| ==> WorkerOk(s, w))
    && (forall id :: id in s.stages ==> StageOk(s, id))
    && CallsOk(s)
  }

  /** The dispatcher object: what its non-blocking sends do to the two channels. */
  class WebhookDispatcher {
    var eventQ: WorkQueue.Queue<MessageEvent>
    var deliveryQ: WorkQueue.Queue<Job>

    constructor (workers: nat)
      ensures eventQ == WorkQueue.NewQueue(EVENT_QUEUE_SIZE, 1)
      ensures deliveryQ == WorkQueue.NewQueue(DELIVERY_QUEUE_SIZE, workers)
    {
      eventQ := WorkQueue.NewQueue(EVENT_QUEUE_SIZE, 1);
      deliveryQ := WorkQueue.NewQueue(DELIVERY_QUEUE_SIZE, workers);
    }

    /** Accepts exactly when there is room, and never blocks. */
    method Enqueue(event: MessageEvent) returns (accepted: bool)
      modifies this`eventQ
      ensures accepted <==> |old(eventQ).queued| < old(eventQ).capacity
      ensures eventQ.queued == if accepted then old(eventQ).queued + [event] else old(eventQ).queued
      ensures eventQ.offers == old(eventQ).offers + [WorkQueue.Offered(event, accepted)]
    {
      accepted := |eventQ.queued| < eventQ.capacity;
      eventQ := WorkQueue.Send(eventQ, event);
    }

    /**
     Pushes the resolved jobs one after the other; others(i) is what the delivery workers, and a stop,
     do to the channel before the i-th push. Every job is offered once, in order, and accepted exactly
     when there is room; if nobody does anything meanwhile, the longest prefix that fits is queued and
     the rest dropped.
     */
    method PushAll(jobs: seq<Job>, others: nat -> seq<WorkQueue.Step<Job>>)
      requires |deliveryQ.queued| <= deliveryQ.capacity
      requires forall i :: 0 <= i < |jobs| ==> NoOffers(others(i))
      modifies this`deliveryQ
      ensures deliveryQ == WorkQueue.Run(old(deliveryQ), Interleaved(jobs, others, |jobs|))
      ensures WorkQueue.Items(deliveryQ.offers) == WorkQueue.Items(old(deliveryQ).offers) + jobs
      ensures WorkQueue.Inv(old(deliveryQ)) ==> WorkQueue.Inv(deliveryQ)
      ensures Undisturbed(others, |jobs|) ==>
                var n := Fitting(old(deliveryQ).capacity - |old(deliveryQ).queued|, |jobs|);
                && deliveryQ.queued == old(deliveryQ).queued + jobs[..n]
                && deliveryQ.taken == old(deliveryQ).taken && deliveryQ.workers == old(deliveryQ).workers
                && WorkQueue.Dropped(deliveryQ.offers) == WorkQueue.Dropped(old(deliveryQ).offers) + jobs[n..]
    {
      ghost var q0 := deliveryQ;
      for i := 0 to |jobs|
        invariant deliveryQ == WorkQueue.Run(q0, Interleaved(jobs, others, i))
      {
        WorkQueue.RunConcat(q0, Interleaved(jobs, others, i), others(i));
        deliveryQ := WorkQueue.Run(deliveryQ, others(i));
        WorkQueue.RunConcat(q0, Interleaved(jobs, others, i) + others(i), [WorkQueue.Offer(jobs[i])]);
        WorkQueue.RunOne(deliveryQ, WorkQueue.Offer(jobs[i]));
        deliveryQ := WorkQueue.Send(deliveryQ, jobs[i]);
      }
      InterleavedOffers(q0, jobs, others, |jobs|);
      assert jobs[..|jobs|] == jobs;
      if WorkQueue.Inv(q0) {
        WorkQueue.RunInv(q0, Interleaved(jobs, others, |jobs|));
      }
      if Undisturbed(others, |jobs|) {
        UndisturbedPushes(q0, jobs, others, |jobs|);
      }
    }
  }

  predicate NoOffers<T>(steps: seq<WorkQueue.Step<T>>) {
    forall i :: 0 <= i < |steps| ==> !steps[i].Offer?
  }

  ghost predicate Undisturbed(others: nat -> seq<WorkQueue.Step<Job>>, n: nat) {
    forall i :: 0 <= i < n ==> others(i) == []
  }

  /** The first n pushes, each after what the others do before it. */
  function Interleaved(jobs: seq<Job>, others: nat -> seq<WorkQueue.Step<Job>>, n: nat): seq<WorkQueue.Step<Job>>
    requires n <= |jobs|
  {
    if n == 0 then [] else Interleaved(jobs, others, n - 1) + others(n - 1) + [WorkQueue.Offer(jobs[n - 1])]
  }

  lemma {:induction false} NoOffersMade<T>(q: WorkQueue.Queue<T>, steps: seq<WorkQueue.Step<T>>)
    requires NoOffers(steps)
    ensures WorkQueue.Run(q, steps).offers == q.offers
  {
    if steps != [] {
      NoOffersMade(q, steps[..|steps| - 1]);
    }
  }

  lemma {:induction false} InterleavedOffers(q: WorkQueue.Queue<Job>, jobs: seq<Job>, others: nat -> seq<WorkQueue.Step<Job>>, n: nat)
    requires n <= |jobs| && forall i :: 0 <= i < n ==> NoOffers(others(i))
    ensures WorkQueue.Items(WorkQueue.Run(q, Interleaved(jobs, others, n)).offers) == WorkQueue.Items(q.offers) + jobs[..n]
  {
    if n > 0 {
      var steps, job := Interleaved(jobs, others, n - 1), jobs[n - 1];
      InterleavedOffers(q, jobs, others, n - 1);
      var t := WorkQueue.Run(q, steps);
      var v := WorkQueue.Run(t, others(n - 1));
      NoOffersMade(t, others(n - 1));
      WorkQueue.RunConcat(q, steps, others(n - 1));
      WorkQueue.RunConcat(q, steps + others(n - 1), [WorkQueue.Offer(job)]);
      WorkQueue.RunOne(v, WorkQueue.Offer(job));
      WorkQueue.ItemsLast(v.offers, WorkQueue.Offered(job, |v.queued| < v.capacity));
      AppendNext(WorkQueue.Items(q.offers), jobs, 0, n - 1);
    }
  }

  lemma {:induction false} UndisturbedPushes(q: WorkQueue.Queue<Job>, jobs: seq<Job>, others: nat -> seq<WorkQueue.Step<Job>>, i: nat)
    requires |q.queued| <= q.capacity && i <= |jobs| && Undisturbed(others, i)
    ensures var u := WorkQueue.Run(q, Interleaved(jobs, others, i));
      var n := Fitting(q.capacity - |q.queued|, i);
      && u.capacity == q.capacity && u.taken == q.taken && u.workers == q.workers
      && u.queued == q.queued + jobs[..n]
      && WorkQueue.Dropped(u.offers) == WorkQueue.Dropped(q.offers) + jobs[n..i]
  {
    if i > 0 {
      var steps := Interleaved(jobs, others, i - 1);
      UndisturbedPushes(q, jobs, others, i - 1);
      assert steps + [] == steps;
      WorkQueue.RunConcat(q, steps, [WorkQueue.Offer(jobs[i - 1])]);
      WorkQueue.RunOne(WorkQueue.Run(q, steps), WorkQueue.Offer(jobs[i - 1]));
      PushOne(q, WorkQueue.Run(q, steps), jobs, i - 1);
    }
  }

  /** How many of i pushes find room. */
  function Fitting(room: nat, i: nat): nat {
    if i <= room then i else room
  }

  lemma PushOne(q0: WorkQueue.Queue<Job>, q: WorkQueue.Queue<Job>, jobs: seq<Job>, i: nat)
    requires |q0.queued| <= q0.capacity == q.capacity && i < |jobs|
    requires q.queued == q0.queued + jobs[..Fitting(q0.capacity - |q0.queued|, i)]
    requires WorkQueue.Dropped(q.offers) == WorkQueue.Dropped(q0.offers) + jobs[Fitting(q0.capacity - |q0.queued|, i)..i]
    ensures var p := WorkQueue.Send(q, jobs[i]);
      var n := Fitting(q0.capacity - |q0.queued|, i + 1);
      && p.queued == q0.queued + jobs[..n]
      && WorkQueue.Dropped(p.offers) == WorkQueue.Dropped(q0.offers) + jobs[n..i + 1]
  {
    var n := Fitting(q0.capacity - |q0.queued|, i);
    var accepted := |q.queued| < q.capacity;
    WorkQueue.SelectLast(q.offers, WorkQueue.Offered(jobs[i], accepted), false);
    if accepted {
      AppendNext(q0.queued, jobs, 0, i);
    } else {
      AppendNext(WorkQueue.Dropped(q0.offers), jobs, n, i);
    }
  }

  lemma AppendNext<T>(a: seq<T>, b: seq<T>, n: nat, i: nat)
    requires n <= i < |b|
    ensures a + b[n..i] + [b[i]] == a + b[n..i + 1]
  {
  }
}
