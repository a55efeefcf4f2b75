/** What the delivery rows say: each holds the latest record that reached the database for it. */
module WebhookRecords {
  import opened Decimal
  import opened Delivery
  import opened Fanout
  import opened WebhookPipeline
  import opened WebhookProofs
  import WorkQueue

  // ----- a row is the latest record written for it

  /** The last record of the run that a worker wrote for the row with the database reachable. */
  ghost function LastWritten(workers: nat, table: Table, es: seq<Event>, id: nat): Option<Record> {
    if es == [] then None
    else
      var s, e := Run(workers, table, es[..|es| - 1]), es[|es| - 1];
      if Enabled(s, e) && e.Write? && e.reachable && s.deliveries.workers[e.worker].item.id == id then Some(s.trails[e.worker][0])
      else LastWritten(workers, table, es[..|es| - 1], id)
  }

  lemma {:induction false} WrittenHasRow(workers: nat, table: Table, es: seq<Event>, id: nat)
    requires UniqueKey(table) && LastWritten(workers, table, es, id).Some?
    ensures id in Run(workers, table, es).table.rows
  {
    var front, e := es[..|es| - 1], es[|es| - 1];
    var s := Run(workers, table, front);
    RunInv(workers, table, front);
    if Enabled(s, e) && e.Write? && e.reachable && s.deliveries.workers[e.worker].item.id == id {
      assert WorkerOk(s, e.worker);
    } else {
      WrittenHasRow(workers, table, front, id);
      if Enabled(s, e) {
        RowStepMonotone(s, e, id);
      }
    }
  }

  /** Between a row's insert and a write to it, a step leaves its record alone. */
  lemma RowStep(s: State, e: Event, id: nat)
    requires Inv(s) && Enabled(s, e) && id in Apply(s, e).table.rows
    ensures var last := Apply(s, e).table.rows[id].last;
      if e.Write? && e.reachable && s.deliveries.workers[e.worker].item.id == id then last == s.trails[e.worker][0]
      else if id in s.table.rows then last == s.table.rows[id].last
      else last == Record(Pending, 0, None, None)
  {
    if e.FanCreate? {
      CreateKeeps(s.table, NewRow(s.fan.event, s.fan.todo[0].user, s.fan.todo[0].url), e.fault);
    } else if e.Write? {
      assert WorkerOk(s, e.worker);
      RecordKeepsKeys(s.table, s.deliveries.workers[e.worker].item.id, s.trails[e.worker][0]);
    }
  }

  /**
   In every run a row's status, attempts, last status and error are those of the latest record that
   reached the database for it; with none, those it was found or inserted with.
   */
  lemma {:induction false} RowIsLastWritten(workers: nat, table: Table, es: seq<Event>, id: nat)
    requires UniqueKey(table) && id in Run(workers, table, es).table.rows
    ensures Run(workers, table, es).table.rows[id].last
         == match LastWritten(workers, table, es, id)
            case Some(record) => record
            case None => if id in table.rows then table.rows[id].last else Record(Pending, 0, None, None)
  {
    if es != [] {
      var front, e := es[..|es| - 1], es[|es| - 1];
      var s := Run(workers, table, front);
      RunInv(workers, table, front);
      if id in s.table.rows {
        RowIsLastWritten(workers, table, front, id);
      } else {
        StartRowsStay(workers, table, front, id);
        if LastWritten(workers, table, front, id).Some? {
          WrittenHasRow(workers, table, front, id);
        }
      }
      if Enabled(s, e) {
        RowStep(s, e, id);
        if e.Write? {
          assert WorkerOk(s, e.worker);
        }
      }
    }
  }

  lemma StartRowsStay(workers: nat, table: Table, es: seq<Event>, id: nat)
    requires UniqueKey(table)
    ensures id in table.rows ==> id in Run(workers, table, es).table.rows
  {
    if id in table.rows {
      assert es[..0] == [];
      RowsMonotone(workers, table, es, 0, id);
    }
  }

  /** A row inserted during the run is delivered exactly when the last record that got through says so. */
  lemma DeliveredIffWritten(workers: nat, table: Table, es: seq<Event>, id: nat)
    requires UniqueKey(table) && id in Run(workers, table, es).table.rows && id !in table.rows
    ensures var written := LastWritten(workers, table, es, id);
      Run(workers, table, es).table.rows[id].last.status == Delivered <==> written.Some? && written.value.status == Delivered
  {
    RowIsLastWritten(workers, table, es, id);
  }

  // ----- a delivery's trail ends in its row

  /** Every write of worker w gets through. */
  ghost predicate GetsThrough(es: seq<Event>, w: nat) {
    forall i :: 0 <= i < |es| && es[i].Write? && es[i].worker == w ==> es[i].reachable
  }

  ghost predicate NoFinish(es: seq<Event>, w: nat) {
    forall i :: 0 <= i < |es| ==> es[i] != Finish(w)
  }

  /** The worker has the job in hand and k records of its trail behind it. */
  ghost predicate At(s: State, w: nat, j: Job, t: seq<Record>, k: nat) {
    && w < |s.deliveries.workers| && w < |s.trails|
    && s.deliveries.workers[w].Handling? && s.deliveries.workers[w].item == j
    && k <= |t| && s.trails[w] == t[k..]
  }

  /** The row says what the last of the first k records does. */
  ghost predicate RowAt(s: State, j: Job, t: seq<Record>, k: nat) {
    && j.id in s.table.rows && k <= |t|
    && s.table.rows[j.id].last == if k == 0 then Record(Pending, 0, None, None) else t[k - 1]
  }

  lemma TakeBegins(s: State, w: nat, t: seq<Record>)
    requires Inv(s) && Enabled(s, Take(w, t))
    ensures At(Apply(s, Take(w, t)), w, s.deliveries.queued[0], t, 0)
    ensures RowAt(Apply(s, Take(w, t)), s.deliveries.queued[0], t, 0)
  {
    var j := s.deliveries.queued[0];
    assert j in s.deliveries.queued;
    assert JobAt(s.table, s.stages, j, Queued) && StageOk(s, j.id);
    assert w < |s.trails|;
  }

  lemma StaysInHand(s: State, e: Event, w: nat, j: Job, t: seq<Record>, k: nat) returns (n: nat)
    requires Inv(s) && Enabled(s, e) && At(s, w, j, t, k) && e != Finish(w)
    ensures At(Apply(s, e), w, j, t, n)
    ensures RowAt(s, j, t, k) && (e.Write? && e.worker == w ==> e.reachable) ==> RowAt(Apply(s, e), j, t, n)
  {
    assert WorkerOk(s, w);
    if e.Write? && e.worker == w {
      n := k + 1;
      assert t[k..][0] == t[k] && t[k..][1..] == t[k + 1..];
      RowStep(s, e, j.id);
    } else {
      n := k;
      RowStepMonotone(s, e, j.id);
      RowStep(s, e, j.id);
      if e.Write? {
        assert WorkerOk(s, e.worker);
      }
    }
  }

  lemma {:induction false} TrailGoesOn(workers: nat, table: Table, es: seq<Event>, w: nat, t: seq<Record>, more: seq<Event>) returns (k: nat)
    requires UniqueKey(table) && Enabled(Run(workers, table, es), Take(w, t)) && NoFinish(more, w)
    ensures var j := Run(workers, table, es).deliveries.queued[0];
      var s := Run(workers, table, es + [Take(w, t)] + more);
      At(s, w, j, t, k) && (GetsThrough(more, w) ==> RowAt(s, j, t, k))
  {
    var start := es + [Take(w, t)];
    var j := Run(workers, table, es).deliveries.queued[0];
    if more == [] {
      RunInv(workers, table, es);
      TakeBegins(Run(workers, table, es), w, t);
      assert start[..|es|] == es && start + more == start;
      k := 0;
    } else {
      var front, e := more[..|more| - 1], more[|more| - 1];
      k := TrailGoesOn(workers, table, es, w, t, front);
      assert (start + more)[..|start + more| - 1] == start + front;
      RunInv(workers, table, start + front);
      var s := Run(workers, table, start + front);
      if Enabled(s, e) {
        k := StaysInHand(s, e, w, j, t, k);
      }
    }
  }

  /**
   A delivery leaves its verdict: when a worker that took a job with trail t comes to its finish, with every
   write since then getting through, the job's row holds the last record of t.
   */
  lemma FinishedRowHoldsVerdict(workers: nat, table: Table, es: seq<Event>, w: nat, t: seq<Record>, more: seq<Event>)
    requires UniqueKey(table) && Enabled(Run(workers, table, es), Take(w, t)) && NoFinish(more, w) && GetsThrough(more, w)
    requires Enabled(Run(workers, table, es + [Take(w, t)] + more), Finish(w))
    ensures var j := Run(workers, table, es).deliveries.queued[0];
      var s := Run(workers, table, es + [Take(w, t)] + more);
      t != [] && j.id in s.table.rows && s.table.rows[j.id].last == t[|t| - 1]
  {
    var k := TrailGoesOn(workers, table, es, w, t, more);
    assert k == |t|;
  }
}
