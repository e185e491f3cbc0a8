/** The delivery watchdog (apps/orders/watchdog.py) against the reapers: what one calls stuck the
    other picks up, and a pass deals with every row it picked up. */
module OutboxWatchdog {
  import opened OutboxTables
  import opened OutboxStore
  import opened OutboxProtocol
  import opened OutboxLease
  import opened OutboxShape

  predicate IsStuck(row: Row, cutoff: int) {
    match row.status
    case Pending => row.createdAt < cutoff
    case Processing => (if row.lastAttemptAt.Some? then row.lastAttemptAt.value else row.createdAt) < cutoff
    case _ => false
  }

  /** At one cutoff everything stuck is selected; the only other rows selected are processing rows
      that never recorded an attempt and are still young. */
  lemma StuckIsSelected(row: Row, cutoff: int)
    ensures SelectedProcessing(row, cutoff) || SelectedPending(row, cutoff) <==>
      IsStuck(row, cutoff) || (row.status.Processing? && row.lastAttemptAt.None? && row.createdAt >= cutoff)
  {}

  /** In every reachable state of every configuration the two agree exactly. */
  lemma {:induction false} WatchdogAgreesWithReaper(cfg: Config, run: seq<Step>, id: Id, cutoff: int)
    requires id in Exec(cfg, run).db.rows
    ensures var row := Exec(cfg, run).db.rows[id];
      IsStuck(row, cutoff) <==> SelectedProcessing(row, cutoff) || SelectedPending(row, cutoff)
  {
    ReachableShape(cfg, run);
    assert RowShape(Exec(cfg, run), id, Exec(cfg, run).db.rows[id]);
  }

  /** What a pass leaves of a row it acted on. */
  ghost predicate DealtWith(after: Reaped, id: Id) {
    && id in after.tables.rows
    && (after.tables.rows[id].status.Sent? || after.tables.rows[id].status.Failed? || id in after.queue)
  }

  /** The ids that the processing loop has to act on. */
  ghost function Acted(t: Tables, ids: seq<Id>, cutoff: int): set<Id> {
    set id | id in ids && id in t.rows && SelectedProcessing(t.rows[id], cutoff)
  }

  ghost function ActedPending(t: Tables, ids: seq<Id>, cutoff: int): set<Id> {
    set id | id in ids && id in t.rows && SelectedPending(t.rows[id], cutoff)
  }

  lemma LastIsNew(ids: seq<Id>)
    requires Ascending(ids) && ids != []
    ensures Ascending(ids[..|ids| - 1]) && ids[|ids| - 1] !in ids[..|ids| - 1]
    ensures forall id :: id in ids <==> id in ids[..|ids| - 1] || id == ids[|ids| - 1]
  {}

  lemma ActedSnoc(t: Tables, ids: seq<Id>, cutoff: int)
    requires Ascending(ids) && ids != []
    ensures var n := |ids| - 1; var id := ids[n];
      |Acted(t, ids, cutoff)| ==
        |Acted(t, ids[..n], cutoff)| + (if id in t.rows && SelectedProcessing(t.rows[id], cutoff) then 1 else 0)
  {
    LastIsNew(ids);
    var id := ids[|ids| - 1];
    var before := Acted(t, ids[..|ids| - 1], cutoff);
    if id in t.rows && SelectedProcessing(t.rows[id], cutoff) {
      assert Acted(t, ids, cutoff) == before + {id};
    } else {
      assert Acted(t, ids, cutoff) == before;
    }
  }

  lemma ActedPendingSnoc(t: Tables, ids: seq<Id>, cutoff: int)
    requires Ascending(ids) && ids != []
    ensures var n := |ids| - 1; var id := ids[n];
      |ActedPending(t, ids, cutoff)| ==
        |ActedPending(t, ids[..n], cutoff)| + (if id in t.rows && SelectedPending(t.rows[id], cutoff) then 1 else 0)
  {
    LastIsNew(ids);
    var id := ids[|ids| - 1];
    var before := ActedPending(t, ids[..|ids| - 1], cutoff);
    if id in t.rows && SelectedPending(t.rows[id], cutoff) {
      assert ActedPending(t, ids, cutoff) == before + {id};
    } else {
      assert ActedPending(t, ids, cutoff) == before;
    }
  }

  ghost predicate LeavesAlone(t: Tables, queue: seq<Id>, ids: seq<Id>, cutoff: int, r: Reaped) {
    && r.tables.logs == t.logs && r.tables.rows.Keys == t.rows.Keys
    && queue <= r.queue
    && (forall id :: id in t.rows && !(id in ids && SelectedProcessing(t.rows[id], cutoff)) ==>
      r.tables.rows[id] == t.rows[id])
  }

  /** The loop leaves alone what is not selected, and the queue only grows. */
  lemma {:induction false} ReapAllKeeps(t: Tables, queue: seq<Id>, ids: seq<Id>, cutoff: int, maxAttempts: int,
                                        now: nat)
    ensures LeavesAlone(t, queue, ids, cutoff, ReapAll(t, queue, ids, cutoff, maxAttempts, now))
  {
    if ids != [] {
      var n := |ids| - 1;
      ReapAllKeeps(t, queue, ids[..n], cutoff, maxAttempts, now);
      assert forall id :: id in ids <==> id in ids[..n] || id == ids[n];
      ReapOneKeeps(t, queue, ids, cutoff, maxAttempts, now, ReapAll(t, queue, ids[..n], cutoff, maxAttempts, now));
    }
  }

  lemma ReapOneKeeps(t: Tables, queue: seq<Id>, ids: seq<Id>, cutoff: int, maxAttempts: int, now: nat, before: Reaped)
    requires ids != [] && LeavesAlone(t, queue, ids[..|ids| - 1], cutoff, before)
    requires forall id :: id in ids <==> id in ids[..|ids| - 1] || id == ids[|ids| - 1]
    ensures LeavesAlone(t, queue, ids, cutoff,
      ReapOne(before, Moment(before.tables, now), ids[|ids| - 1], cutoff, maxAttempts))
  {}

  /** The undisturbed processing loop over distinct ids acts on exactly the rows that are stale, and
      counts them. */
  lemma {:induction false} ReapAllActs(t: Tables, queue: seq<Id>, ids: seq<Id>, cutoff: int, maxAttempts: int, now: nat)
    requires Ascending(ids) && !ReapAll(t, queue, ids, cutoff, maxAttempts, now).missing
    ensures var r := ReapAll(t, queue, ids, cutoff, maxAttempts, now);
      && (forall id :: id in ids ==> id in t.rows)
      && (forall id :: id in Acted(t, ids, cutoff) ==> DealtWith(r, id))
      && r.count == |Acted(t, ids, cutoff)|
  {
    if ids != [] {
      var n := |ids| - 1;
      LastIsNew(ids);
      ActedSnoc(t, ids, cutoff);
      ReapAllActs(t, queue, ids[..n], cutoff, maxAttempts, now);
      ReapAllKeeps(t, queue, ids[..n], cutoff, maxAttempts, now);
      ReapAllStep(t, queue, ids, cutoff, maxAttempts, now);
    }
  }

  /** One iteration settles a stale row or asks for another task; others it skips. */
  lemma ReapTxActs(t: Tables, id: Id, cutoff: int, maxAttempts: int, now: nat)
    requires id in t.rows
    ensures var (after, result) := ReapTx(t, id, cutoff, maxAttempts, now);
      && (result.Skipped? <==> !SelectedProcessing(t.rows[id], cutoff))
      && (result.Requeue? || result.Skipped? ==> after == t)
      && (result.Reconciled? || result.Exhausted? ==>
        after.rows == t.rows[id := after.rows[id]] && (after.rows[id].status.Sent? || after.rows[id].status.Failed?))
      && !result.Missing?
  {}

  lemma {:induction false} ReapAllStep(t: Tables, queue: seq<Id>, ids: seq<Id>, cutoff: int, maxAttempts: int, now: nat)
    requires ids != [] && !ReapAll(t, queue, ids, cutoff, maxAttempts, now).missing
    ensures var before := ReapAll(t, queue, ids[..|ids| - 1], cutoff, maxAttempts, now);
      var after := ReapAll(t, queue, ids, cutoff, maxAttempts, now); var id := ids[|ids| - 1];
      && !before.missing && id in before.tables.rows
      && after.count == before.count + (if SelectedProcessing(before.tables.rows[id], cutoff) then 1 else 0)
      && (SelectedProcessing(before.tables.rows[id], cutoff) ==> DealtWith(after, id))
      && (forall other :: other != id && DealtWith(before, other) ==> DealtWith(after, other))
  {
    var before := ReapAll(t, queue, ids[..|ids| - 1], cutoff, maxAttempts, now);
    var id := ids[|ids| - 1];
    ReapTxActs(before.tables, id, cutoff, maxAttempts, now);
    var (tables, result) := ReapTx(before.tables, id, cutoff, maxAttempts, now);
    var after := ReapAll(t, queue, ids, cutoff, maxAttempts, now);
    assert result.Requeue? ==> after.queue == before.queue + [id] && id in after.queue;
    assert !result.Requeue? ==> after.queue == before.queue && after.tables == tables;
  }

  lemma {:induction false} ReapAllPendingActs(t: Tables, queue: seq<Id>, ids: seq<Id>, cutoff: int)
    requires Ascending(ids) && !ReapAllPending(t, queue, ids, cutoff).missing
    ensures var r := ReapAllPending(t, queue, ids, cutoff);
      && r.tables == t
      && queue <= r.queue
      && (forall id :: id in ActedPending(t, ids, cutoff) ==> id in r.queue)
      && r.count == |r.queue| - |queue| == |ActedPending(t, ids, cutoff)|
  {
    if ids != [] {
      LastIsNew(ids);
      ActedPendingSnoc(t, ids, cutoff);
      ReapAllPendingActs(t, queue, ids[..|ids| - 1], cutoff);
    }
  }

  /** Selected rows exist, so an uninterrupted pass is never cut short. */
  lemma {:induction false} ReapAllCompletes(t: Tables, queue: seq<Id>, ids: seq<Id>, cutoff: int, maxAttempts: int,
                                            now: nat)
    requires forall id :: id in ids ==> id in t.rows
    ensures var r := ReapAll(t, queue, ids, cutoff, maxAttempts, now); !r.missing && r.tables.rows.Keys == t.rows.Keys
  {
    if ids != [] { ReapAllCompletes(t, queue, ids[..|ids| - 1], cutoff, maxAttempts, now); }
  }

  lemma {:induction false} ReapAllPendingCompletes(t: Tables, queue: seq<Id>, ids: seq<Id>, cutoff: int)
    requires forall id :: id in ids ==> id in t.rows
    ensures !ReapAllPending(t, queue, ids, cutoff).missing && ReapAllPending(t, queue, ids, cutoff).tables == t
  {
    if ids != [] { ReapAllPendingCompletes(t, queue, ids[..|ids| - 1], cutoff); }
  }

  /** After an uninterrupted pass every row the watchdog calls stuck at the pass's cutoff is SENT,
      FAILED or has a task queued, and the count returned is the number of rows selected. */
  lemma PassClearsStuckRows(t: Tables, queue: seq<Id>, cutoff: int, maxAttempts: int, now: nat)
    ensures var pass := ReapPass(t, queue, cutoff, maxAttempts, now);
      var between := ReapAll(t, queue, StuckProcessing(t.rows, cutoff), cutoff, maxAttempts, now).tables;
      && !pass.missing
      && (forall id :: id in t.rows && IsStuck(t.rows[id], cutoff) ==> DealtWith(pass, id))
      && pass.count == |StuckProcessing(t.rows, cutoff)| + |StalePending(between.rows, cutoff)|
  {
    var processing := StuckProcessing(t.rows, cutoff);
    ReapAllCompletes(t, queue, processing, cutoff, maxAttempts, now);
    ReapAllActs(t, queue, processing, cutoff, maxAttempts, now);
    ReapAllKeeps(t, queue, processing, cutoff, maxAttempts, now);
    var first := ReapAll(t, queue, processing, cutoff, maxAttempts, now);
    var pending := StalePending(first.tables.rows, cutoff);
    ReapAllPendingCompletes(first.tables, first.queue, pending, cutoff);
    ReapAllPendingActs(first.tables, first.queue, pending, cutoff);
    var pass := ReapPass(t, queue, cutoff, maxAttempts, now);
    forall id | id in t.rows && IsStuck(t.rows[id], cutoff) ensures DealtWith(pass, id) {
      if t.rows[id].status.Processing? {
        assert id in Acted(t, processing, cutoff) && DealtWith(first, id);
      } else {
        assert first.tables.rows[id] == t.rows[id] && id in ActedPending(first.tables, pending, cutoff);
      }
    }
    assert Acted(t, processing, cutoff) == set id | id in processing;
    assert ActedPending(first.tables, pending, cutoff) == set id | id in pending;
    DistinctSize(processing);
    DistinctSize(pending);
  }

  lemma {:induction false} DistinctSize(ids: seq<Id>)
    requires Ascending(ids)
    ensures |set id | id in ids| == |ids|
  {
    if ids != [] {
      var n := |ids| - 1;
      DistinctSize(ids[..n]);
      assert ids[n] !in ids[..n];
      assert (set id | id in ids) == (set id | id in ids[..n]) + {ids[n]};
    }
  }

  // ---------- among other sessions ----------

  /** The iterations that find their row still stale under its lock. */
  ghost function Acting(ids: seq<Id>, found: seq<Moment>, cutoff: int): set<nat>
    requires |ids| <= |found|
  {
    set n: nat | n < |ids| && ids[n] in found[n].tables.rows && SelectedProcessing(found[n].tables.rows[ids[n]], cutoff)
  }

  ghost function ActingPending(ids: seq<Id>, found: seq<Moment>, cutoff: int): set<nat>
    requires |ids| <= |found|
  {
    set n: nat | n < |ids| && ids[n] in found[n].tables.rows && SelectedPending(found[n].tables.rows[ids[n]], cutoff)
  }

  /** What the iteration leaves when it releases the lock. */
  ghost predicate Handled(m: Moment, id: Id, cutoff: int, maxAttempts: int, queued: seq<Id>) {
    var (after, result) := ReapTx(m.tables, id, cutoff, maxAttempts, m.now);
    id in after.rows && (IsSettled(after.rows[id]) || (after == m.tables && id in queued))
  }

  ghost predicate AllHandled(ids: seq<Id>, found: seq<Moment>, cutoff: int, maxAttempts: int, queued: seq<Id>)
    requires |ids| <= |found|
  {
    forall n :: n in Acting(ids, found, cutoff) ==> Handled(found[n], ids[n], cutoff, maxAttempts, queued)
  }

  lemma ActingSnoc(ids: seq<Id>, found: seq<Moment>, cutoff: int)
    requires ids != [] && |ids| <= |found|
    ensures var n := |ids| - 1;
      var last := ids[n] in found[n].tables.rows && SelectedProcessing(found[n].tables.rows[ids[n]], cutoff);
      Acting(ids, found, cutoff) == Acting(ids[..n], found, cutoff) + (if last then {n} else {})
  {}

  lemma ActingPendingSnoc(ids: seq<Id>, found: seq<Moment>, cutoff: int)
    requires ids != [] && |ids| <= |found|
    ensures var n := |ids| - 1;
      var last := ids[n] in found[n].tables.rows && SelectedPending(found[n].tables.rows[ids[n]], cutoff);
      ActingPending(ids, found, cutoff) == ActingPending(ids[..n], found, cutoff) + (if last then {n} else {})
  {}

  /** One more iteration, after some have queued `queued`. */
  lemma HandledSnoc(ids: seq<Id>, found: seq<Moment>, cutoff: int, maxAttempts: int, queued: seq<Id>, more: seq<Id>)
    requires ids != [] && |ids| <= |found| && AllHandled(ids[..|ids| - 1], found, cutoff, maxAttempts, queued)
    requires var n := |ids| - 1; n in Acting(ids, found, cutoff) ==>
      Handled(found[n], ids[n], cutoff, maxAttempts, more)
    ensures AllHandled(ids, found, cutoff, maxAttempts, queued + more)
  {
    forall n | n in Acting(ids, found, cutoff) ensures Handled(found[n], ids[n], cutoff, maxAttempts, queued + more) {
      assert n < |ids| - 1 ==> n in Acting(ids[..|ids| - 1], found, cutoff) && ids[..|ids| - 1][n] == ids[n];
    }
  }

  lemma OneIsHandled(m: Moment, id: Id, cutoff: int, maxAttempts: int)
    requires id in m.tables.rows
    ensures var (after, result) := ReapTx(m.tables, id, cutoff, maxAttempts, m.now);
      && (result.Skipped? <==> !SelectedProcessing(m.tables.rows[id], cutoff))
      && (result.Skipped? ==> after == m.tables)
      && (!result.Skipped? ==> Handled(m, id, cutoff, maxAttempts, Requeued(m, id, cutoff, maxAttempts)))
      && !result.Missing?
  {}

  /** What the iteration queues. */
  function Requeued(m: Moment, id: Id, cutoff: int, maxAttempts: int): seq<Id> {
    if ReapTx(m.tables, id, cutoff, maxAttempts, m.now).1.Requeue? then [id] else []
  }

  lemma ReapOneCounts(before: Reaped, m: Moment, id: Id, cutoff: int, maxAttempts: int)
    requires !before.missing && id in m.tables.rows
    ensures var r := ReapOne(before, m, id, cutoff, maxAttempts);
      && !r.missing && r.queue == before.queue + Requeued(m, id, cutoff, maxAttempts)
      && r.count == before.count + (if SelectedProcessing(m.tables.rows[id], cutoff) then 1 else 0)
  {}

  /** The loop has stopped early exactly at a deleted row; otherwise every row that its iteration still
      found stale was settled by it or had a task queued, and the count is that of those iterations. */
  ghost predicate Accounted(r: Reaped, queue: seq<Id>, ids: seq<Id>, found: seq<Moment>, cutoff: int, maxAttempts: int,
                            queued: seq<Id>)
    requires |ids| <= |found|
  {
    && r.queue == queue + queued
    && (r.missing <==> MeetsDeleted(ids, found))
    && (!r.missing ==> AllHandled(ids, found, cutoff, maxAttempts, queued) && r.count == |Acting(ids, found, cutoff)|)
  }

  lemma AccountedSnoc(before: Reaped, queue: seq<Id>, ids: seq<Id>, found: seq<Moment>, cutoff: int, maxAttempts: int,
                      queued: seq<Id>)
    returns (all: seq<Id>)
    requires ids != [] && |ids| <= |found|
    requires Accounted(before, queue, ids[..|ids| - 1], found, cutoff, maxAttempts, queued)
    ensures var n := |ids| - 1;
      Accounted(ReapOne(before, found[n], ids[n], cutoff, maxAttempts), queue, ids, found, cutoff, maxAttempts, all)
  {
    var n := |ids| - 1;
    MeetsDeletedSnoc(ids, found);
    if before.missing || ids[n] !in found[n].tables.rows {
      all := queued;
    } else {
      ActingSnoc(ids, found, cutoff);
      OneIsHandled(found[n], ids[n], cutoff, maxAttempts);
      all := queued + Requeued(found[n], ids[n], cutoff, maxAttempts);
      ReapOneCounts(before, found[n], ids[n], cutoff, maxAttempts);
      assert queue + all == queue + queued + Requeued(found[n], ids[n], cutoff, maxAttempts);
      HandledSnoc(ids, found, cutoff, maxAttempts, queued, Requeued(found[n], ids[n], cutoff, maxAttempts));
    }
  }

  /** Whatever other sessions do before any of the locks are taken, the processing loop accounts for
      every row as it finds it. */
  lemma {:induction false} ReapEachActs(t: Tables, queue: seq<Id>, ids: seq<Id>, found: seq<Moment>, cutoff: int,
                                        maxAttempts: int)
    returns (queued: seq<Id>)
    requires |ids| <= |found|
    ensures Accounted(ReapEach(t, queue, ids, found, cutoff, maxAttempts), queue, ids, found, cutoff, maxAttempts,
      queued)
  {
    queued := [];
    if ids == [] {
      assert queue + queued == queue;
    } else {
      var before := ids[..|ids| - 1];
      var some := ReapEachActs(t, queue, before, found, cutoff, maxAttempts);
      queued := AccountedSnoc(ReapEach(t, queue, before, found, cutoff, maxAttempts), queue, ids, found, cutoff,
        maxAttempts, some);
    }
  }

  /** The same for the pending loop, which changes no row: exactly those rows are queued. */
  lemma {:induction false} ReapEachPendingActs(t: Tables, queue: seq<Id>, ids: seq<Id>, found: seq<Moment>, cutoff: int)
    returns (queued: seq<Id>)
    requires |ids| <= |found|
    ensures var r := ReapEachPending(t, queue, ids, found, cutoff);
      && r.queue == queue + queued
      && (r.missing <==> MeetsDeleted(ids, found))
      && (!r.missing ==>
        && (forall n :: n in ActingPending(ids, found, cutoff) ==> ids[n] in queued)
        && r.count == |queued| == |ActingPending(ids, found, cutoff)|
        && r.tables == if ids == [] then t else found[|ids| - 1].tables)
  {
    queued := [];
    if ids != [] {
      var n := |ids| - 1;
      var before := ReapEachPendingActs(t, queue, ids[..n], found, cutoff);
      MeetsDeletedSnoc(ids, found);
      ActingPendingSnoc(ids, found, cutoff);
      queued := before;
      if ReapPendingTx(found[n].tables, ids[n], cutoff).Requeue? &&
        !ReapEachPending(t, queue, ids[..n], found, cutoff).missing {
        queued := before + [ids[n]];
        assert queue + queued == queue + before + [ids[n]];
      }
    }
  }
}
