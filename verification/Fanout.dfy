/** The delivery table under its unique (event, user) key, and the fan-out that fills it. */
module Fanout {
  import opened Decimal
  import opened Sorting
  import opened Delivery

  datatype MessageEvent = MessageEvent(id: string, room: string, user: Int64, content: string)

  datatype Row = Row(event: string, user: Int64, room: string, url: string, last: Record)

  /** A row as the insert leaves it. */
  function NewRow(event: MessageEvent, user: Int64, url: string): Row {
    Row(event.id, user, event.room, url, Record(Pending, 0, None, None))
  }

  datatype Table = Table(rows: map<nat, Row>, nextId: nat)

  predicate Taken(t: Table, event: string, user: Int64) {
    exists id :: id in t.rows && t.rows[id].event == event && t.rows[id].user == user
  }

  ghost predicate UniqueKey(t: Table) {
    && (forall id :: id in t.rows ==> id < t.nextId)
    && (forall a, b :: a in t.rows && b in t.rows && t.rows[a].event == t.rows[b].event && t.rows[a].user == t.rows[b].user ==> a == b)
  }

  /** How the database may fail: before the insert, or after it with the answer lost. */
  datatype Fault = NoFault | Refused | AnswerLost

  datatype CreateResult = Created(id: nat) | Duplicate | Broken

  function Insert(t: Table, row: Row): Table {
    Table(t.rows[t.nextId := row], t.nextId + 1)
  }

  function CreateIn(t: Table, row: Row, fault: Fault): (Table, CreateResult) {
    if fault.Refused? then (t, Broken)
    else if Taken(t, row.event, row.user) then (t, if fault.AnswerLost? then Broken else Duplicate)
    else (Insert(t, row), if fault.AnswerLost? then Broken else Created(t.nextId))
  }

  function RecordIn(t: Table, id: nat, record: Record): Table {
    if id in t.rows then t.(rows := t.rows[id := t.rows[id].(last := record)]) else t
  }

  /** An insert keeps the key unique and touches no other row. */
  lemma CreateKeeps(t: Table, row: Row, fault: Fault)
    requires UniqueKey(t)
    ensures var (u, r) := CreateIn(t, row, fault);
      && UniqueKey(u)
      && (forall id :: id in t.rows ==> id in u.rows && u.rows[id] == t.rows[id])
      && (forall id :: id in u.rows && id !in t.rows ==> u.rows[id] == row && !Taken(t, row.event, row.user))
      && (r.Created? ==> r.id !in t.rows && r.id in u.rows && u.rows[r.id] == row)
      && (r.Duplicate? ==> Taken(t, row.event, row.user))
  {
    assert t.nextId !in t.rows;
  }

  class DeliveryRepository {
    var table: Table

    ghost predicate Valid()
      reads this
    {
      UniqueKey(table)
    }

    constructor ()
      ensures Valid() && table == Table(map[], 1)
    {
      table := Table(map[], 1);
    }

    method Create(row: Row, fault: Fault) returns (r: CreateResult)
      requires Valid()
      modifies this
      ensures Valid()
      ensures forall id :: id in old(table).rows ==> id in table.rows && table.rows[id] == old(table).rows[id]
      ensures r.Created? ==> r.id !in old(table).rows && table.rows == old(table).rows[r.id := row]
      ensures r.Duplicate? ==> table == old(table)
      ensures fault == NoFault ==> (r.Duplicate? <==> Taken(old(table), row.event, row.user)) && !r.Broken?
      ensures fault == Refused ==> r.Broken? && table == old(table)
      ensures fault == AnswerLost ==> r.Broken?
      ensures fault == AnswerLost && !Taken(old(table), row.event, row.user) ==>
                exists id: nat :: id !in old(table).rows && table.rows == old(table).rows[id := row]
      ensures (table, r) == CreateIn(old(table), row, fault)
    {
      CreateKeeps(table, row, fault);
      assert table.nextId !in table.rows;
      var (t, answer) := CreateIn(table, row, fault);
      table := t;
      r := answer;
    }

    /** Updates the row of that id if there is one; an unreachable database changes nothing. */
    method RecordAttempt(id: nat, record: Record, reachable: bool)
      requires Valid()
      modifies this
      ensures Valid() && table.rows.Keys == old(table).rows.Keys
      ensures forall x :: x in table.rows ==>
                table.rows[x] == if x == id && reachable then old(table).rows[x].(last := record) else old(table).rows[x]
    {
      if reachable {
        table := RecordIn(table, id, record);
      }
    }
  }

  datatype Recipient = Recipient(user: Int64, url: string, id: nat)

  /** Whom an event is for: subscribers other than the sender, not known to be online, with a webhook. */
  predicate Wanted(event: MessageEvent, subscribers: seq<Int64>, online: seq<Int64>, hooks: map<Int64, string>, u: Int64) {
    u in subscribers && u != event.user && u !in online && u in hooks
  }

  /** The webhooks of the given users, each once, in the order the database yields them. */
  method ListByUserIDs(hooks: map<Int64, string>, ids: seq<Int64>) returns (users: seq<Int64>)
    ensures Distinct(users) && forall u :: u in users <==> u in ids && u in hooks
  {
    users := [];
    var rest := set u | u in hooks && u in ids;
    while rest != {}
      invariant Distinct(users)
      invariant forall u :: u in users || u in rest <==> u in ids && u in hooks
      invariant forall u :: !(u in users && u in rest)
      decreases rest
    {
      var u :| u in rest;
      assert u !in users;
      users := users + [u];
      rest := rest - {u};
    }
  }

  /** The subscribers who are neither the sender nor online, in order. */
  method Candidates(event: MessageEvent, subscribers: seq<Int64>, online: seq<Int64>) returns (candidates: seq<Int64>)
    ensures forall u :: u in candidates <==> u in subscribers && u != event.user && u !in online
  {
    var isOnline: set<Int64> := {};
    for i := 0 to |online|
      invariant isOnline == set u | u in online[..i]
    {
      isOnline := isOnline + {online[i]};
    }
    candidates := [];
    for i := 0 to |subscribers|
      invariant forall u :: u in candidates <==> u in subscribers[..i] && u != event.user && u !in online
    {
      assert subscribers[..i + 1] == subscribers[..i] + [subscribers[i]];
      if subscribers[i] != event.user && subscribers[i] !in isOnline {
        candidates := candidates + [subscribers[i]];
      }
    }
    assert subscribers[..|subscribers|] == subscribers;
  }

  /** What a completed fan-out of the users to one event leaves behind. */
  ghost predicate Resolved(before: Table, after: Table, event: MessageEvent, hooks: map<Int64, string>,
                           users: seq<Int64>, recipients: seq<Recipient>)
    requires forall u :: u in users ==> u in hooks
  {
    && (forall id :: id in before.rows ==> id in after.rows && after.rows[id] == before.rows[id])
    && (forall i, j :: 0 <= i < j < |recipients| ==> recipients[i].id != recipients[j].id)
    && (forall r :: r in recipients ==>
         && r.user in users && r.url == hooks[r.user] && r.id !in before.rows
         && r.id in after.rows && after.rows[r.id] == NewRow(event, r.user, r.url))
    && (forall u :: u in users ==> Taken(before, event.id, u) || exists r :: r in recipients && r.user == u)
    && (forall u :: u in users && Taken(before, event.id, u) ==> forall r :: r in recipients ==> r.user != u)
  }

  class FanoutService {
    const deliveryRepo: DeliveryRepository

    constructor (repo: DeliveryRepository)
      ensures deliveryRepo == repo
    {
      deliveryRepo := repo;
    }

    /**
     Creates a row per user and keeps those that had none. A duplicate is skipped; any other
     failure abandons the whole fan-out.
     */
    method CreateRows(event: MessageEvent, hooks: map<Int64, string>, users: seq<Int64>, faults: nat -> Fault)
      returns (r: Option<seq<Recipient>>)
      requires deliveryRepo.Valid() && Distinct(users) && forall u :: u in users ==> u in hooks
      modifies deliveryRepo
      ensures deliveryRepo.Valid()
      ensures forall id :: id in old(deliveryRepo.table).rows ==>
                id in deliveryRepo.table.rows && deliveryRepo.table.rows[id] == old(deliveryRepo.table).rows[id]
      ensures r.Some? ==> Resolved(old(deliveryRepo.table), deliveryRepo.table, event, hooks, users, r.value)
      ensures (forall i :: faults(i) == NoFault) ==> r.Some?
    {
      var recipients: seq<Recipient> := [];
      ghost var t0 := deliveryRepo.table;
      for i := 0 to |users|
        invariant deliveryRepo.Valid()
        invariant Resolved(t0, deliveryRepo.table, event, hooks, users[..i], recipients)
        invariant forall u :: Taken(deliveryRepo.table, event.id, u) ==> Taken(t0, event.id, u) || u in users[..i]
      {
        var u := users[i];
        ghost var t := deliveryRepo.table;
        var row := NewRow(event, u, hooks[u]);
        var answer := deliveryRepo.Create(row, faults(i));
        if answer.Broken? {
          return None;
        }
        CreateKeeps(t, row, faults(i));
        assert users[..i + 1] == users[..i] + [u] && u !in users[..i];
        if answer.Created? {
          ResolvedMore(t0, t, deliveryRepo.table, event, hooks, users[..i], recipients, u, answer.id);
          recipients := recipients + [Recipient(u, hooks[u], answer.id)];
        } else {
          assert Taken(t0, event.id, u);
          ResolvedSkip(t0, t, event, hooks, users[..i], recipients, u);
        }
      }
      assert users[..|users|] == users;
      r := Some(recipients);
    }

    /**
     Recipients. A presence outage (online is None) counts nobody as online; the two listing
     errors and a database fault end the fan-out with an error.
     */
    method Recipients(event: MessageEvent, subscribers: Option<seq<Int64>>, online: Option<seq<Int64>>,
                      hooks: Option<map<Int64, string>>, faults: nat -> Fault) returns (r: Option<seq<Recipient>>)
      requires deliveryRepo.Valid()
      modifies deliveryRepo
      ensures deliveryRepo.Valid()
      ensures r.Some? ==> subscribers.Some? && hooks.Some?
      ensures r.Some? ==> var known := if online.Some? then online.value else [];
                forall x :: x in r.value ==>
                  && x.user in subscribers.value && x.user != event.user && x.user !in known && x.user in hooks.value
                  && x.url == hooks.value[x.user]
                  && x.id !in old(deliveryRepo.table).rows && x.id in deliveryRepo.table.rows
                  && deliveryRepo.table.rows[x.id]
                     == Row(event.id, x.user, event.room, hooks.value[x.user], Record(Pending, 0, None, None))
      ensures r.Some? ==> var known := if online.Some? then online.value else [];
                forall u :: u in subscribers.value && u != event.user && u !in known && u in hooks.value ==>
                  (Taken(old(deliveryRepo.table), event.id, u) <==> !exists x :: x in r.value && x.user == u)
      ensures r.Some? ==> forall i, j :: 0 <= i < j < |r.value| ==> r.value[i].id != r.value[j].id
      ensures subscribers.Some? && hooks.Some? && (forall i :: faults(i) == NoFault) ==> r.Some?
      ensures forall id :: id in old(deliveryRepo.table).rows ==>
                id in deliveryRepo.table.rows && deliveryRepo.table.rows[id] == old(deliveryRepo.table).rows[id]
    {
      if subscribers.None? {
        return None;
      }
      var known := if online.Some? then online.value else [];
      var candidates := Candidates(event, subscribers.value, known);
      if hooks.None? {
        return None;
      }
      var users := ListByUserIDs(hooks.value, candidates);
      assert forall u :: u in users <==> Wanted(event, subscribers.value, known, hooks.value, u);
      r := CreateRows(event, hooks.value, users, faults);
    }
  }

  lemma ResolvedMore(t0: Table, t: Table, t': Table, event: MessageEvent, hooks: map<Int64, string>,
                     users: seq<Int64>, recipients: seq<Recipient>, u: Int64, id: nat)
    requires u in hooks && u !in users && forall x :: x in users ==> x in hooks
    requires Resolved(t0, t, event, hooks, users, recipients)
    requires !Taken(t0, event.id, u) && id !in t.rows
    requires t'.rows == t.rows[id := NewRow(event, u, hooks[u])]
    ensures Resolved(t0, t', event, hooks, users + [u], recipients + [Recipient(u, hooks[u], id)])
  {
    var more := recipients + [Recipient(u, hooks[u], id)];
    assert more[|recipients|] == Recipient(u, hooks[u], id);
    forall x | x in users + [u] ensures Taken(t0, event.id, x) || exists r :: r in more && r.user == x {
      if x in users && !Taken(t0, event.id, x) {
        var r :| r in recipients && r.user == x;
        assert r in more;
      }
    }
  }

  lemma ResolvedSkip(t0: Table, t: Table, event: MessageEvent, hooks: map<Int64, string>,
                     users: seq<Int64>, recipients: seq<Recipient>, u: Int64)
    requires u in hooks && u !in users && forall x :: x in users ==> x in hooks
    requires Resolved(t0, t, event, hooks, users, recipients) && Taken(t0, event.id, u)
    ensures Resolved(t0, t, event, hooks, users + [u], recipients)
  {
  }
}
