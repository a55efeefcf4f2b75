/**
 Shutting the webhook pipeline down. Both of its channels behave as work queues on their
 own, so what is known of those holds of them in every run of the pipeline.
 */
module WebhookShutdown {
  import opened Decimal
  import opened Delivery
  import opened Fanout
  import opened WebhookPipeline
  import WorkQueue

  // ----- the pipeline's channels are work queues

  /** What an event of the pipeline does to the delivery channel. */
  ghost function DeliverySteps(s: State, e: Event): seq<WorkQueue.Step<Job>>
    requires Enabled(s, e)
  {
    match e
    case StopAll => [WorkQueue.Stop]
    case FanPush => [WorkQueue.Offer(s.fan.jobs[0])]
    case Take(w, _) => [WorkQueue.Take(w)]
    case Finish(w) => [WorkQueue.Finish(w)]
    case SeeStop(w) => [WorkQueue.SeeStop(w)]
    case SeeEmpty(w) => [WorkQueue.SeeEmpty(w)]
    case _ => []
  }

  /** What an event of the pipeline does to the event channel, which the fan-out worker serves. */
  ghost function EventSteps(s: State, e: Event): seq<WorkQueue.Step<MessageEvent>>
    requires Enabled(s, e)
  {
    match e
    case StopAll => [WorkQueue.Stop]
    case Enqueue(event) => [WorkQueue.Offer(event)]
    case FanTake(_) => [WorkQueue.Take(0)]
    case FanDone => [WorkQueue.Finish(0)]
    case FanSeeStop => [WorkQueue.SeeStop(0)]
    case FanSeeEmpty => [WorkQueue.SeeEmpty(0)]
    case _ => []
  }

  ghost function DeliveryRun(workers: nat, table: Table, es: seq<Event>): seq<WorkQueue.Step<Job>> {
    if es == [] then []
    else
      var front, last := es[..|es| - 1], es[|es| - 1];
      DeliveryRun(workers, table, front)
      + if Enabled(Run(workers, table, front), last) then DeliverySteps(Run(workers, table, front), last) else []
  }

  ghost function EventRun(workers: nat, table: Table, es: seq<Event>): seq<WorkQueue.Step<MessageEvent>> {
    if es == [] then []
    else
      var front, last := es[..|es| - 1], es[|es| - 1];
      EventRun(workers, table, front)
      + if Enabled(Run(workers, table, front), last) then EventSteps(Run(workers, table, front), last) else []
  }

  lemma QueueRunMore<T>(q: WorkQueue.Queue<T>, steps: seq<WorkQueue.Step<T>>, more: seq<WorkQueue.Step<T>>)
    requires |more| <= 1 && (more != [] ==> WorkQueue.Enabled(WorkQueue.Run(q, steps), more[0]))
    ensures WorkQueue.Run(q, steps + more)
         == if more == [] then WorkQueue.Run(q, steps) else WorkQueue.Apply(WorkQueue.Run(q, steps), more[0])
  {
    if more == [] {
      assert steps + more == steps;
    } else {
      assert (steps + more)[..|steps|] == steps;
    }
  }

  /** A step of the pipeline is at most one step of each channel. */
  lemma StepsOfChannels(s: State, e: Event)
    requires Enabled(s, e)
    ensures var d := DeliverySteps(s, e);
      && |d| <= 1 && (d != [] ==> WorkQueue.Enabled(s.deliveries, d[0]))
      && Apply(s, e).deliveries == if d == [] then s.deliveries else WorkQueue.Apply(s.deliveries, d[0])
    ensures var v := EventSteps(s, e);
      && |v| <= 1 && (v != [] ==> WorkQueue.Enabled(s.events, v[0]))
      && Apply(s, e).events == if v == [] then s.events else WorkQueue.Apply(s.events, v[0])
  {
  }

  /** In every run of the pipeline both channels have gone through runs of a work queue. */
  lemma {:induction false} ChannelsAreQueues(workers: nat, table: Table, es: seq<Event>)
    ensures Run(workers, table, es).deliveries
         == WorkQueue.Run(WorkQueue.NewQueue(DELIVERY_QUEUE_SIZE, workers), DeliveryRun(workers, table, es))
    ensures Run(workers, table, es).events
         == WorkQueue.Run(WorkQueue.NewQueue(EVENT_QUEUE_SIZE, 1), EventRun(workers, table, es))
  {
    if es != [] {
      var front, last := es[..|es| - 1], es[|es| - 1];
      ChannelsAreQueues(workers, table, front);
      var s := Run(workers, table, front);
      var dq := WorkQueue.NewQueue<Job>(DELIVERY_QUEUE_SIZE, workers);
      var eq := WorkQueue.NewQueue<MessageEvent>(EVENT_QUEUE_SIZE, 1);
      if Enabled(s, last) {
        StepsOfChannels(s, last);
        QueueRunMore(dq, DeliveryRun(workers, table, front), DeliverySteps(s, last));
        QueueRunMore(eq, EventRun(workers, table, front), EventSteps(s, last));
      } else {
        QueueRunMore(dq, DeliveryRun(workers, table, front), []);
        QueueRunMore(eq, EventRun(workers, table, front), []);
      }
    }
  }

  /**
   Conservation through shutdown. Accepted events are fanned out in order, in hand or queued;
   resolved jobs are delivered, in hand, queued or dropped on a full queue.
   */
  lemma ChannelsConserve(workers: nat, table: Table, es: seq<Event>)
    ensures var q := Run(workers, table, es).events;
      WorkQueue.Accepted(q.offers) == q.handled + WorkQueue.InHand(q.workers) + q.queued
    ensures var q := Run(workers, table, es).deliveries;
      multiset(WorkQueue.Items(q.offers)) == multiset(q.handled) + multiset(WorkQueue.InHand(q.workers))
                                             + multiset(q.queued) + multiset(WorkQueue.Dropped(q.offers))
  {
    ChannelsAreQueues(workers, table, es);
    WorkQueue.Conservation<Job>(DELIVERY_QUEUE_SIZE, workers, DeliveryRun(workers, table, es));
    WorkQueue.Conservation<MessageEvent>(EVENT_QUEUE_SIZE, 1, EventRun(workers, table, es));
    WorkQueue.RunKeepsPool(WorkQueue.NewQueue<MessageEvent>(EVENT_QUEUE_SIZE, 1), EventRun(workers, table, es));
  }
}
