/**
 A bounded channel served by a pool of workers, as both dispatchers use it. Offers never
 block and are dropped when the buffer is full. A worker selects between the stop signal
 and the queue; once it has seen the stop it drains until it finds the queue empty, then
 exits. Offers go on for as long as anybody makes them: the channel is never closed.
 */
module WorkQueue {

  datatype Offered<T> = Offered(item: T, accepted: bool)

  /** mark: how many items had been accepted when the worker last found the queue empty. */
  datatype Worker<T> =
    | Selecting
    | Handling(item: T, draining: bool)
    | Draining
    | Exited(mark: nat)

  datatype Queue<T> = Queue(
    capacity: nat,
    stopped: bool,
    offers: seq<Offered<T>>,
    queued: seq<T>,
    taken: seq<T>,
    handled: seq<T>,
    workers: seq<Worker<T>>)

  function NewQueue<T>(capacity: nat, workers: nat): Queue<T> {
    Queue(capacity, false, [], [], [], [], seq(workers, i => Selecting))
  }

  datatype Step<T> =
    | Offer(item: T)
    | Stop
    | Take(worker: nat)
    | Finish(worker: nat)
    | SeeStop(worker: nat)
    | SeeEmpty(worker: nat)

  predicate Enabled<T>(q: Queue<T>, s: Step<T>) {
    match s
    case Offer(_) => true
    case Stop => true
    case Take(w) => w < |q.workers| && q.queued != [] && (q.workers[w].Selecting? || q.workers[w].Draining?)
    case Finish(w) => w < |q.workers| && q.workers[w].Handling?
    case SeeStop(w) => w < |q.workers| && q.workers[w].Selecting? && q.stopped
    case SeeEmpty(w) => w < |q.workers| && q.workers[w].Draining? && q.queued == []
  }

  /** A non-blocking send. */
  function Send<T>(q: Queue<T>, x: T): Queue<T> {
    if |q.queued| < q.capacity then
      q.(offers := q.offers + [Offered(x, true)], queued := q.queued + [x])
    else q.(offers := q.offers + [Offered(x, false)])
  }

  function Apply<T>(q: Queue<T>, s: Step<T>): Queue<T>
    requires Enabled(q, s)
  {
    match s
    case Offer(x) => Send(q, x)
    case Stop => q.(stopped := true)
    case Take(w) =>
      q.(queued := q.queued[1..], taken := q.taken + [q.queued[0]],
         workers := q.workers[w := Handling(q.queued[0], q.workers[w].Draining?)])
    case Finish(w) =>
      q.(handled := q.handled + [q.workers[w].item],
         workers := q.workers[w := if q.workers[w].draining then Draining else Selecting])
    case SeeStop(w) => q.(workers := q.workers[w := Draining])
    case SeeEmpty(w) => q.(workers := q.workers[w := Exited(|Accepted(q.offers)|)])
  }

  function Run<T>(q: Queue<T>, steps: seq<Step<T>>): Queue<T> {
    if steps == [] then q
    else
      var p := Run(q, steps[..|steps| - 1]);
      if Enabled(p, steps[|steps| - 1]) then Apply(p, steps[|steps| - 1]) else p
  }

  // ----- what was accepted and what was dropped

  function Select<T>(offers: seq<Offered<T>>, accepted: bool): seq<T> {
    if offers == [] then []
    else
      var front := Select(offers[..|offers| - 1], accepted);
      var last := offers[|offers| - 1];
      if last.accepted == accepted then front + [last.item] else front
  }

  function Accepted<T>(offers: seq<Offered<T>>): seq<T> { Select(offers, true) }

  function Dropped<T>(offers: seq<Offered<T>>): seq<T> { Select(offers, false) }

  function Items<T>(offers: seq<Offered<T>>): seq<T> {
    seq(|offers|, i requires 0 <= i < |offers| => offers[i].item)
  }

  /** The items in the workers' hands. */
  function InHand<T>(workers: seq<Worker<T>>): seq<T> {
    if workers == [] then []
    else Hand(workers[0]) + InHand(workers[1..])
  }

  function Hand<T>(worker: Worker<T>): seq<T> {
    if worker.Handling? then [worker.item] else []
  }

  // ----- the invariant

  /** Accepted items leave the queue in order and are handled or in hand. */
  ghost predicate Flow<T>(q: Queue<T>) {
    && |q.queued| <= q.capacity
    && Accepted(q.offers) == q.taken + q.queued
  }

  ghost predicate Hands<T>(taken: seq<T>, handled: seq<T>, workers: seq<Worker<T>>) {
    && multiset(taken) == multiset(handled) + multiset(InHand(workers))
    && (|workers| == 1 ==> taken == handled + InHand(workers))
  }

  ghost predicate WorkerOk<T>(q: Queue<T>, worker: Worker<T>) {
    match worker
    case Selecting => true
    case Handling(_, draining) => draining ==> q.stopped
    case Draining => q.stopped
    case Exited(mark) => q.stopped && mark <= |q.taken|
  }

  ghost predicate Inv<T>(q: Queue<T>) {
    && Flow(q)
    && Hands(q.taken, q.handled, q.workers)
    && forall w :: 0 <= w < |q.workers| ==> WorkerOk(q, q.workers[w])
  }

  lemma ItemsLast<T>(offers: seq<Offered<T>>, o: Offered<T>)
    ensures Items(offers + [o]) == Items(offers) + [o.item]
  {
  }

  lemma SelectLast<T>(offers: seq<Offered<T>>, o: Offered<T>, accepted: bool)
    ensures Select(offers + [o], accepted)
         == Select(offers, accepted) + if o.accepted == accepted then [o.item] else []
  {
    assert (offers + [o])[..|offers|] == offers;
  }

  /** What everybody but worker w holds. */
  function OtherHands<T(==)>(workers: seq<Worker<T>>, w: nat): multiset<T>
    requires w < |workers|
  {
    multiset(InHand(workers[..w]) + InHand(workers[w + 1..]))
  }

  lemma InHandRest<T>(workers: seq<Worker<T>>, w: nat)
    requires w < |workers|
    ensures multiset(InHand(workers)) == OtherHands(workers, w) + multiset(Hand(workers[w]))
    ensures |workers| == 1 ==> InHand(workers) == Hand(workers[w])
  {
    InHandAt(workers, w);
    var a, h, b := InHand(workers[..w]), Hand(workers[w]), InHand(workers[w + 1..]);
    assert multiset(a + h + b) == multiset(a) + multiset(h) + multiset(b);
    assert multiset(a + b) == multiset(a) + multiset(b);
  }

  /** Changing one worker changes only that worker's hand. */
  lemma InHandUpdate<T>(workers: seq<Worker<T>>, w: nat, x: Worker<T>)
    requires w < |workers|
    ensures multiset(InHand(workers)) == OtherHands(workers, w) + multiset(Hand(workers[w]))
    ensures multiset(InHand(workers[w := x])) == OtherHands(workers, w) + multiset(Hand(x))
    ensures |workers| == 1 ==> InHand(workers) == Hand(workers[w]) && InHand(workers[w := x]) == Hand(x)
  {
    InHandRest(workers, w);
    InHandRest(workers[w := x], w);
    assert workers[w := x][..w] == workers[..w] && workers[w := x][w + 1..] == workers[w + 1..];
  }

  lemma Regroup<T>(a: seq<T>, b: seq<T>, c: seq<T>, d: seq<T>)
    ensures a + (b + c + d) == (a + b) + c + d
  {
  }

  lemma {:induction false} InHandAt<T>(workers: seq<Worker<T>>, w: nat)
    requires w < |workers|
    ensures InHand(workers) == InHand(workers[..w]) + Hand(workers[w]) + InHand(workers[w + 1..])
  {
    if w > 0 {
      var tail := workers[1..];
      InHandAt(tail, w - 1);
      assert workers[..w][1..] == tail[..w - 1] && tail[w..] == workers[w + 1..];
      Regroup(Hand(workers[0]), InHand(tail[..w - 1]), Hand(workers[w]), InHand(tail[w..]));
    }
  }

  lemma {:induction false} NothingInHand<T>(workers: seq<Worker<T>>)
    requires forall w :: 0 <= w < |workers| ==> !workers[w].Handling?
    ensures InHand(workers) == []
  {
    if workers != [] {
      NothingInHand(workers[1..]);
    }
  }

  lemma HandsTake<T>(taken: seq<T>, handled: seq<T>, workers: seq<Worker<T>>, w: nat, x: T, draining: bool)
    requires Hands(taken, handled, workers) && w < |workers| && !workers[w].Handling?
    ensures Hands(taken + [x], handled, workers[w := Handling(x, draining)])
  {
    var next := Handling(x, draining);
    InHandUpdate(workers, w, next);
    assert Hand(next) == [x] && Hand(workers[w]) == [];
    assert multiset(taken + [x]) == multiset(taken) + multiset([x]);
    if |workers| == 1 {
      assert taken == handled;
    }
  }

  lemma HandsOver<T>(handled: multiset<T>, others: multiset<T>, hand: multiset<T>, empty: multiset<T>)
    requires empty == multiset{}
    ensures handled + (others + hand) == (handled + hand) + (others + empty)
  {
  }

  lemma HandsFinish<T>(taken: seq<T>, handled: seq<T>, workers: seq<Worker<T>>, w: nat, next: Worker<T>)
    requires Hands(taken, handled, workers) && w < |workers| && workers[w].Handling? && !next.Handling?
    ensures Hands(taken, handled + [workers[w].item], workers[w := next])
  {
    InHandUpdate(workers, w, next);
    HandsOver(multiset(handled), OtherHands(workers, w), multiset(Hand(workers[w])), multiset(Hand(next)));
  }

  lemma HandsIdle<T>(taken: seq<T>, handled: seq<T>, workers: seq<Worker<T>>, w: nat, next: Worker<T>)
    requires Hands(taken, handled, workers) && w < |workers| && !workers[w].Handling? && !next.Handling?
    ensures Hands(taken, handled, workers[w := next])
  {
    InHandUpdate(workers, w, next);
  }

  lemma MoveFirst<T>(a: seq<T>, b: seq<T>)
    requires b != []
    ensures a + [b[0]] + b[1..] == a + b
  {
  }

  lemma FlowKept<T>(q: Queue<T>, s: Step<T>)
    requires Flow(q) && Enabled(q, s)
    ensures Flow(Apply(q, s))
  {
    if s.Offer? {
      SelectLast(q.offers, Offered(s.item, true), true);
      SelectLast(q.offers, Offered(s.item, false), true);
      assert q.taken + (q.queued + [s.item]) == q.taken + q.queued + [s.item];
    } else if s.Take? {
      MoveFirst(q.taken, q.queued);
    }
  }

  lemma HandsKept<T>(q: Queue<T>, s: Step<T>)
    requires Hands(q.taken, q.handled, q.workers) && Enabled(q, s)
    ensures Hands(Apply(q, s).taken, Apply(q, s).handled, Apply(q, s).workers)
  {
    match s
    case Offer(_) =>
    case Stop =>
    case Take(w) => HandsTake(q.taken, q.handled, q.workers, w, q.queued[0], q.workers[w].Draining?);
    case Finish(w) =>
      HandsFinish(q.taken, q.handled, q.workers, w, if q.workers[w].draining then Draining else Selecting);
    case SeeStop(w) => HandsIdle(q.taken, q.handled, q.workers, w, Draining);
    case SeeEmpty(w) => HandsIdle(q.taken, q.handled, q.workers, w, Exited(|Accepted(q.offers)|));
  }

  lemma WorkersKept<T>(q: Queue<T>, s: Step<T>)
    requires Flow(q) && Enabled(q, s)
    requires forall w :: 0 <= w < |q.workers| ==> WorkerOk(q, q.workers[w])
    ensures forall w :: 0 <= w < |Apply(q, s).workers| ==> WorkerOk(Apply(q, s), Apply(q, s).workers[w])
  {
    var p := Apply(q, s);
    forall w | 0 <= w < |p.workers| ensures WorkerOk(p, p.workers[w]) {
      assert WorkerOk(q, q.workers[w]);
    }
  }

  lemma ApplyInv<T>(q: Queue<T>, s: Step<T>)
    requires Inv(q) && Enabled(q, s)
    ensures Inv(Apply(q, s))
  {
    FlowKept(q, s);
    HandsKept(q, s);
    WorkersKept(q, s);
  }

  lemma SendInv<T>(q: Queue<T>, x: T)
    requires Inv(q)
    ensures Inv(Send(q, x)) && |Send(q, x).workers| == |q.workers|
  {
    ApplyInv(q, Offer(x));
  }

  lemma {:induction false} RunInv<T>(q: Queue<T>, steps: seq<Step<T>>)
    requires Inv(q)
    ensures Inv(Run(q, steps))
  {
    if steps != [] {
      RunInv(q, steps[..|steps| - 1]);
      var p := Run(q, steps[..|steps| - 1]);
      if Enabled(p, steps[|steps| - 1]) {
        ApplyInv(p, steps[|steps| - 1]);
      }
    }
  }

  lemma {:induction false} RunConcat<T>(q: Queue<T>, a: seq<Step<T>>, b: seq<Step<T>>)
    ensures Run(q, a + b) == Run(Run(q, a), b)
  {
    if b == [] {
      assert a + b == a;
    } else {
      RunConcat(q, a, b[..|b| - 1]);
      assert (a + b)[..|a + b| - 1] == a + b[..|b| - 1];
    }
  }

  lemma RunOne<T>(q: Queue<T>, s: Step<T>)
    requires Enabled(q, s)
    ensures Run(q, [s]) == Apply(q, s)
  {
    assert [s][..0] == [];
  }

  /** Workers come and go between states; nobody joins or disappears. */
  lemma {:induction false} RunKeepsPool<T>(q: Queue<T>, steps: seq<Step<T>>)
    ensures |Run(q, steps).workers| == |q.workers|
  {
    if steps != [] {
      RunKeepsPool(q, steps[..|steps| - 1]);
    }
  }

  lemma NewQueueInv<T>(capacity: nat, workers: nat)
    ensures Inv(NewQueue<T>(capacity, workers))
  {
    NothingInHand(NewQueue<T>(capacity, workers).workers);
  }

  /** Every offer was accepted or dropped, and nothing else was. */
  lemma {:induction false} OffersSplit<T>(offers: seq<Offered<T>>)
    ensures multiset(Items(offers)) == multiset(Accepted(offers)) + multiset(Dropped(offers))
  {
    if offers != [] {
      var front := offers[..|offers| - 1];
      OffersSplit(front);
      assert offers == front + [offers[|offers| - 1]];
      SelectLast(front, offers[|offers| - 1], true);
      SelectLast(front, offers[|offers| - 1], false);
      assert Items(offers) == Items(front) + [offers[|offers| - 1].item];
    }
  }

  /**
   Conservation through shutdown: whatever was offered has been handled, is in a worker's
   hand, is still queued, or was dropped on a full queue. With one worker the order is kept too.
   */
  lemma Conservation<T>(capacity: nat, workers: nat, steps: seq<Step<T>>)
    ensures var q := Run(NewQueue<T>(capacity, workers), steps);
      && multiset(Items(q.offers)) == multiset(q.handled) + multiset(InHand(q.workers))
                                      + multiset(q.queued) + multiset(Dropped(q.offers))
      && (|q.workers| == 1 ==> Accepted(q.offers) == q.handled + InHand(q.workers) + q.queued)
  {
    var q := Run(NewQueue<T>(capacity, workers), steps);
    NewQueueInv<T>(capacity, workers);
    RunInv(NewQueue<T>(capacity, workers), steps);
    OffersSplit(q.offers);
    assert multiset(q.taken + q.queued) == multiset(q.taken) + multiset(q.queued);
  }

  /** What was accepted before a worker's last look at an empty queue has been taken by somebody. */
  lemma DrainedBeforeExit<T>(capacity: nat, workers: nat, steps: seq<Step<T>>, w: nat)
    ensures var q := Run(NewQueue<T>(capacity, workers), steps);
      w < |q.workers| && q.workers[w].Exited? ==>
        && q.stopped && q.workers[w].mark <= |q.taken| <= |Accepted(q.offers)|
        && Accepted(q.offers)[..q.workers[w].mark] == q.taken[..q.workers[w].mark]
  {
    NewQueueInv<T>(capacity, workers);
    RunInv(NewQueue<T>(capacity, workers), steps);
    var q := Run(NewQueue<T>(capacity, workers), steps);
    if w < |q.workers| {
      assert WorkerOk(q, q.workers[w]);
    }
  }

  /** No worker is left to take anything; trivially so in a pool of none. */
  ghost predicate NobodyLeft<T>(q: Queue<T>) {
    forall w :: 0 <= w < |q.workers| ==> q.workers[w].Exited?
  }

  ghost predicate AllGone<T>(q: Queue<T>) {
    q.workers != [] && NobodyLeft(q)
  }

  lemma StaysIn<T>(q: Queue<T>, s: Step<T>)
    requires Enabled(q, s) && (s.Take? || s.Finish? || s.SeeStop?)
    ensures !AllGone(Apply(q, s))
  {
    assert !Apply(q, s).workers[s.worker].Exited?;
  }

  /** After k steps the last worker had left, and nothing was queued or has been taken since. */
  ghost predicate LeftAt<T>(q0: Queue<T>, steps: seq<Step<T>>, k: nat) {
    && k <= |steps| && AllGone(Run(q0, steps[..k]))
    && Run(q0, steps[..k]).queued == [] && Run(q0, steps).taken == Run(q0, steps[..k]).taken
  }

  lemma {:induction false} SomebodyLeftLast<T>(q0: Queue<T>, steps: seq<Step<T>>) returns (k: nat)
    requires !AllGone(q0) && AllGone(Run(q0, steps))
    ensures LeftAt(q0, steps, k)
  {
    var front, last := steps[..|steps| - 1], steps[|steps| - 1];
    var p := Run(q0, front);
    if AllGone(p) {
      k := SomebodyLeftLast(q0, front);
      assert front[..k] == steps[..k];
      assert Enabled(p, last) ==> last.Offer? || last.Stop?;
    } else {
      if !last.SeeEmpty? && Enabled(p, last) && !last.Offer? && !last.Stop? {
        StaysIn(p, last);
      }
      k := |steps|;
      assert steps[..k] == steps;
    }
  }

  /**
   What a shutdown strands: once every worker has left, the queue holds exactly what was accepted
   after the step at which the last of them left.
   */
  lemma StrandedItems<T>(capacity: nat, workers: nat, steps: seq<Step<T>>)
    ensures var q0 := NewQueue<T>(capacity, workers);
      var q := Run(q0, steps);
      AllGone(q) ==>
        exists k: nat :: LeftAt(q0, steps, k)
          && var before := Accepted(Run(q0, steps[..k]).offers);
          before <= Accepted(q.offers) && q.queued == Accepted(q.offers)[|before|..]
  {
    var q0 := NewQueue<T>(capacity, workers);
    var q := Run(q0, steps);
    NewQueueInv<T>(capacity, workers);
    if AllGone(q) {
      assert q0.workers != [] ==> !q0.workers[0].Exited?;
      var k := SomebodyLeftLast(q0, steps);
      RunInv(q0, steps);
      RunInv(q0, steps[..k]);
      assert q.taken + q.queued == Accepted(q.offers);
      assert Accepted(Run(q0, steps[..k]).offers) == q.taken + [];
    }
  }

  lemma HandleOne<T>(q: Queue<T>, w: nat)
    requires Inv(q) && Enabled(q, Take(w)) && q.workers[w].Draining?
    ensures Enabled(Apply(q, Take(w)), Finish(w))
    ensures var p := Apply(Apply(q, Take(w)), Finish(w));
      && Inv(p) && |p.workers| == |q.workers| && p.workers[w].Draining? && p.offers == q.offers
      && p.queued == q.queued[1..]
      && p.taken + p.queued == q.taken + q.queued && p.handled + p.queued == q.handled + q.queued
  {
    ApplyInv(q, Take(w));
    ApplyInv(Apply(q, Take(w)), Finish(w));
    MoveFirst(q.taken, q.queued);
    MoveFirst(q.handled, q.queued);
  }

  /** A drain nobody interrupts: the worker handles everything queued, in order, and exits. */
  method Drain<T>(q0: Queue<T>, w: nat) returns (q: Queue<T>)
    requires Inv(q0) && w < |q0.workers| && q0.workers[w].Draining?
    ensures Inv(q) && q.queued == [] && |q.workers| == |q0.workers| && q.workers[w].Exited?
    ensures q.offers == q0.offers && q.taken == q0.taken + q0.queued && q.handled == q0.handled + q0.queued
  {
    q := q0;
    while q.queued != []
      invariant Inv(q) && |q.workers| == |q0.workers| && q.workers[w].Draining?
      invariant q.offers == q0.offers && q.taken + q.queued == q0.taken + q0.queued
      invariant q.handled + q.queued == q0.handled + q0.queued
      decreases |q.queued|
    {
      HandleOne(q, w);
      q := Apply(q, Take(w));
      q := Apply(q, Finish(w));
    }
    ApplyInv(q, SeeEmpty(w));
    q := Apply(q, SeeEmpty(w));
  }
}
