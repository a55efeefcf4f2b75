/**
 One-shot WebSocket tickets: issued with a TTL, deleted on redemption, swept by a
 reaper. Times are nanoseconds; the random ticket id is an input.
 */
module Tickets {
  import opened Decimal

  const TICKET_TTL: int := 30_000_000_000

  datatype Identity = Identity(user: Int64, role: string)

  datatype Entry = Entry(who: Identity, expiresAt: int)

  type Store = map<string, Entry>

  datatype Op =
    | Issue(id: string, who: Identity, now: int)
    | Redeem(id: string, now: int)
    | Reap(now: int)

  function Apply(s: Store, op: Op): Store {
    match op
    case Issue(id, who, now) => s[id := Entry(who, now + TICKET_TTL)]
    case Redeem(id, _) => s - {id}
    case Reap(now) => map id | id in s && now <= s[id].expiresAt :: s[id]
  }

  /** The answer of a redemption; nothing for any other operation. */
  function Answer(s: Store, op: Op): Option<Identity> {
    if op.Redeem? && op.id in s && op.now <= s[op.id].expiresAt then Some(s[op.id].who) else None
  }

  function Run(ops: seq<Op>): Store {
    if ops == [] then map[] else Apply(Run(ops[..|ops| - 1]), ops[|ops| - 1])
  }

  /** The answers of the redemptions of a run, in order. */
  function Answers(ops: seq<Op>): seq<Option<Identity>> {
    if ops == [] then []
    else
      var front, last := ops[..|ops| - 1], ops[|ops| - 1];
      if last.Redeem? then Answers(front) + [Answer(Run(front), last)] else Answers(front)
  }

  /** No sweep so far ran with a time later than now. */
  ghost predicate SweptBy(ops: seq<Op>, now: int) {
    forall i :: 0 <= i < |ops| && ops[i].Reap? ==> ops[i].now <= now
  }

  /**
   A redemption reads its time under the lock, so not before the time of any earlier sweep. A sweep
   reads its own before it takes the lock and may be older than anything already done.
   */
  ghost predicate SweepsPrecede(ops: seq<Op>) {
    forall j :: 0 <= j < |ops| && ops[j].Redeem? ==> SweptBy(ops[..j], ops[j].now)
  }

  // ----- specification: what the run says about one ticket

  /**
   What redeeming id at now must answer: the identity of the last issue of id, if nothing has
   redeemed it since and its TTL has not passed. Sweeps play no part.
   */
  function Expected(ops: seq<Op>, id: string, now: int): Option<Identity> {
    if ops == [] then None
    else
      match ops[|ops| - 1]
      case Issue(i, who, t) =>
        if i == id then (if now <= t + TICKET_TTL then Some(who) else None)
        else Expected(ops[..|ops| - 1], id, now)
      case Redeem(i, _) => if i == id then None else Expected(ops[..|ops| - 1], id, now)
      case Reap(_) => Expected(ops[..|ops| - 1], id, now)
  }

  /** Every redemption answers as the run's issues and redemptions alone require. */
  lemma {:induction false} RedeemAnswersExpected(ops: seq<Op>, id: string, now: int)
    requires SweptBy(ops, now)
    ensures Answer(Run(ops), Redeem(id, now)) == Expected(ops, id, now)
  {
    if ops != [] {
      RedeemAnswersExpected(ops[..|ops| - 1], id, now);
    }
  }

  function WithoutReaps(ops: seq<Op>): seq<Op> {
    if ops == [] then []
    else
      var front := WithoutReaps(ops[..|ops| - 1]);
      if ops[|ops| - 1].Reap? then front else front + [ops[|ops| - 1]]
  }

  lemma {:induction false} WithoutReapsHasNone(ops: seq<Op>)
    ensures forall i :: 0 <= i < |WithoutReaps(ops)| ==> !WithoutReaps(ops)[i].Reap?
  {
    if ops != [] {
      WithoutReapsHasNone(ops[..|ops| - 1]);
    }
  }

  lemma {:induction false} ExpectedIgnoresReaps(ops: seq<Op>, id: string, now: int)
    ensures Expected(WithoutReaps(ops), id, now) == Expected(ops, id, now)
  {
    if ops != [] {
      var front := WithoutReaps(ops[..|ops| - 1]);
      ExpectedIgnoresReaps(ops[..|ops| - 1], id, now);
      assert (front + [ops[|ops| - 1]])[..|front|] == front;
    }
  }

  /** The reaper is unobservable: deleting every sweep from a run changes no answer. */
  lemma {:induction false} ReaperUnobservable(ops: seq<Op>)
    requires SweepsPrecede(ops)
    ensures Answers(WithoutReaps(ops)) == Answers(ops)
  {
    if ops != [] {
      var front, last := ops[..|ops| - 1], ops[|ops| - 1];
      var kept := WithoutReaps(front);
      forall j | 0 <= j < |front| && front[j].Redeem? ensures SweptBy(front[..j], front[j].now) {
        assert front[..j] == ops[..j];
      }
      ReaperUnobservable(front);
      if last.Redeem? {
        WithoutReapsHasNone(front);
        RedeemAnswersExpected(front, last.id, last.now);
        RedeemAnswersExpected(kept, last.id, last.now);
        ExpectedIgnoresReaps(front, last.id, last.now);
      }
      assert (kept + [last])[..|kept|] == kept;
    }
  }

  // ----- at most once

  function Issues(ops: seq<Op>, id: string): nat {
    if ops == [] then 0
    else Issues(ops[..|ops| - 1], id) + if ops[|ops| - 1].Issue? && ops[|ops| - 1].id == id then 1 else 0
  }

  function Successes(ops: seq<Op>, id: string): nat {
    if ops == [] then 0
    else
      var front, last := ops[..|ops| - 1], ops[|ops| - 1];
      Successes(front, id) + if last.Redeem? && last.id == id && Answer(Run(front), last).Some? then 1 else 0
  }

  /** A ticket buys at most one connection per issue, so with fresh ids at most one ever. */
  lemma {:induction false} SuccessPerIssue(ops: seq<Op>, id: string)
    ensures Successes(ops, id) + (if id in Run(ops) then 1 else 0) <= Issues(ops, id)
  {
    if ops != [] {
      SuccessPerIssue(ops[..|ops| - 1], id);
    }
  }

  /** A success carries the identity of an issue at most a TTL old and not redeemed since. */
  lemma {:induction false} SuccessHasIssue(ops: seq<Op>, id: string, now: int) returns (k: nat)
    requires Expected(ops, id, now).Some?
    ensures k < |ops| && ops[k].Issue? && ops[k].id == id && ops[k].who == Expected(ops, id, now).value
    ensures now <= ops[k].now + TICKET_TTL
    ensures forall j :: k < j < |ops| ==> !(ops[j].Redeem? && ops[j].id == id) && !(ops[j].Issue? && ops[j].id == id)
  {
    var last := ops[|ops| - 1];
    if last.Issue? && last.id == id {
      k := |ops| - 1;
    } else {
      k := SuccessHasIssue(ops[..|ops| - 1], id, now);
    }
  }

  lemma LogMore(log: seq<Op>, op: Op)
    requires SweepsPrecede(log) && (op.Redeem? ==> SweptBy(log, op.now))
    ensures SweepsPrecede(log + [op]) && Run(log + [op]) == Apply(Run(log), op)
  {
    var more := log + [op];
    assert more[..|log|] == log;
    forall j | 0 <= j < |more| && more[j].Redeem? ensures SweptBy(more[..j], more[j].now) {
      if j < |log| {
        assert more[..j] == log[..j];
      }
    }
  }

  class TicketService {
    var tickets: Store
    ghost var log: seq<Op>

    ghost predicate Valid()
      reads this
    {
      tickets == Run(log) && SweepsPrecede(log)
    }

    constructor ()
      ensures Valid() && log == []
    {
      tickets := map[];
      log := [];
    }

    /** No random bytes, no ticket: the error leaves the service as it was. */
    method Issue(random: Option<string>, who: Identity, now: int) returns (ticket: Option<string>)
      requires Valid()
      modifies this
      ensures Valid() && ticket == random
      ensures log == if random.Some? then old(log) + [Op.Issue(random.value, who, now)] else old(log)
    {
      ticket := random;
      if random.Some? {
        tickets := tickets[random.value := Entry(who, now + TICKET_TTL)];
        LogMore(log, Op.Issue(random.value, who, now));
        log := log + [Op.Issue(random.value, who, now)];
      }
    }

    method Redeem(ticket: string, now: int) returns (r: Option<Identity>)
      requires Valid() && SweptBy(log, now)
      modifies this
      ensures Valid() && log == old(log) + [Op.Redeem(ticket, now)]
      ensures r == Expected(old(log), ticket, now)
      ensures ticket !in tickets
    {
      RedeemAnswersExpected(log, ticket, now);
      LogMore(log, Op.Redeem(ticket, now));
      log := log + [Op.Redeem(ticket, now)];
      if ticket !in tickets {
        assert tickets == tickets - {ticket};
        return None;
      }
      var entry := tickets[ticket];
      tickets := tickets - {ticket};
      if now > entry.expiresAt {
        return None;
      }
      r := Some(entry.who);
    }

    method ReapOnce(now: int)
      requires Valid()
      modifies this
      ensures Valid() && log == old(log) + [Op.Reap(now)]
      ensures forall id :: id in tickets <==> id in old(tickets) && now <= old(tickets)[id].expiresAt
    {
      var rest := tickets.Keys;
      while rest != {}
        modifies this`tickets
        invariant rest <= old(tickets).Keys
        invariant forall id :: id in tickets <==>
                    id in old(tickets) && (id in rest || now <= old(tickets)[id].expiresAt)
        invariant forall id :: id in tickets ==> tickets[id] == old(tickets)[id]
        decreases rest
      {
        var ticket :| ticket in rest;
        rest := rest - {ticket};
        if now > tickets[ticket].expiresAt {
          tickets := tickets - {ticket};
        }
      }
      assert tickets == Apply(old(tickets), Op.Reap(now));
      LogMore(log, Op.Reap(now));
      log := log + [Op.Reap(now)];
    }
  }
}
