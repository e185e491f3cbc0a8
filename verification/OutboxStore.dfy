/** The services of apps/notifications and the email sender of apps/emails as they are written:
    step by step, on tables updated in place. Every method is proved to perform one of the
    transactions of OutboxTables, so what is proved about those holds of this code. */
module OutboxStore {
  import opened Wrappers
  import opened OutboxTables

  datatype CreateResult = Created(id: Id) | IntegrityError

  /** What the notification handler does: it returns or it raises, having added email logs. */
  datatype Handler = Returns(logs: seq<EmailLog>) | Raises(logs: seq<EmailLog>, error: string)

  datatype ProcessResult = Returned(value: bool) | Raised

  datatype Smtp = Accepts | Refuses

  datatype SendResult = Logged(log: nat) | NoRecipient | OutboxGone | EmailSuppressed | EmailFailed

  function FinalStatus(suppressed: bool, smtp: Smtp): LogStatus {
    if suppressed then Suppressed else if smtp.Accepts? then LogStatus.Sent else LogStatus.Failed
  }

  const DAY := 86400

  predicate OfKind(row: Row, kind: Option<string>) {
    kind.None? || row.kind == kind.value
  }

  /** Rows that one of the two deletions selects. */
  function OldSent(rows: map<Id, Row>, cutoff: int, kind: Option<string>): set<Id> {
    set id | id in rows && rows[id].status.Sent? && Expired(rows[id], cutoff, 0) && OfKind(rows[id], kind)
  }

  function OldFailed(rows: map<Id, Row>, cutoff: int, kind: Option<string>): set<Id> {
    set id | id in rows && rows[id].status.Failed? && Expired(rows[id], 0, cutoff) && OfKind(rows[id], kind)
  }

  function Deleted(t: Tables, ids: set<Id>): Tables {
    Tables(t.rows - ids, DetachedAll(t.logs, ids))
  }

  /** A bulk deletion is the deletion of its rows one by one. */
  lemma DeletedOneByOne(t: Tables, ids: set<Id>, id: Id)
    requires id in ids
    ensures Deleted(t, ids) == Deleted(DeleteTx(t, id), ids - {id}) && Deleted(t, {}) == t
  {
    assert t.rows - ids == t.rows - {id} - (ids - {id});
    assert DetachedAll(t.logs, ids) == DetachedAll(Detached(t.logs, id), ids - {id});
    assert DetachedAll(t.logs, {}) == t.logs;
  }

  lemma DeletedTwice(t: Tables, a: set<Id>, b: set<Id>)
    ensures Deleted(Deleted(t, a), b) == Deleted(t, a + b)
  {
    assert t.rows - a - b == t.rows - (a + b);
    assert DetachedAll(DetachedAll(t.logs, a), b) == DetachedAll(t.logs, a + b);
  }

  function DetachedAll(logs: seq<EmailLog>, ids: set<Id>): (r: seq<EmailLog>)
    ensures |r| == |logs|
    ensures forall l :: 0 <= l < |logs| ==>
      r[l] == if logs[l].outbox.Some? && logs[l].outbox.value in ids then logs[l].(outbox := None) else logs[l]
  {
    seq(|logs|, l requires 0 <= l < |logs| =>
      if logs[l].outbox.Some? && logs[l].outbox.value in ids then logs[l].(outbox := None) else logs[l])
  }

  /** process_notification_outbox without other actors between its three transactions. */
  ghost function ProcessTx(t: Tables, id: Id, timeout: nat, checkedAt: nat, now: nat, handler: Handler, finishedAt: nat)
    : (Tables, ProcessResult)
  {
    var (begun, result) := BeginTx(t, id, timeout, checkedAt, now);
    match result
    case Missing => (begun, Raised)
    case Rejected => (begun, Raised)
    case Finished(value) => (begun, Returned(value))
    case Begun(outbox) =>
      var handled := begun.(logs := begun.logs + handler.logs);
      if handler.Raises? then (FailTx(handled, id, handler.error, finishedAt).0, Raised)
      else
        var (finished, written) :=
          if outbox.channel.Telegram? then DeliverTx(handled, id, finishedAt) else SendTx(handled, id, finishedAt);
        (finished, if written.Written? then Returned(true) else Raised)
  }

  /** The task sets no attempt going: the row is settled, awaits its delivery, or is still being worked on. */
  lemma TaskStops(t: Tables, id: Id, timeout: nat, checkedAt: nat, now: nat, handler: Handler, finishedAt: nat)
    requires id in t.rows
    requires var row := t.rows[id];
      || row.status == Status.Sent || row.status == Delivering
      || (row.status == Processing && row.lastAttemptAt.Some? && row.lastAttemptAt.value >= checkedAt - timeout)
    ensures ProcessTx(t, id, timeout, checkedAt, now, handler, finishedAt) == (t, Returned(false))
  {}

  /** A stale attempt whose send was recorded is only reconciled. */
  lemma TaskReconciles(t: Tables, id: Id, timeout: nat, checkedAt: nat, now: nat, handler: Handler, finishedAt: nat)
    requires id in t.rows && t.rows[id].status == Processing &&
      (t.rows[id].lastAttemptAt.None? || t.rows[id].lastAttemptAt.value < checkedAt - timeout)
    requires exists l :: 0 <= l < |t.logs| && SentLogOf(t.logs[l], id)
    ensures var (after, result) := ProcessTx(t, id, timeout, checkedAt, now, handler, finishedAt);
      && result == Returned(true) && id in after.rows && after == t.(rows := t.rows[id := after.rows[id]])
      && Reconciliation(t.logs, id, t.rows[id], after.rows[id], now)
  {
    ReconciledFromLatest(t.logs, id, t.rows[id], now);
  }

  /** The row of a task that has run its handler. */
  function AfterTask(row: Row, handler: Handler, now: nat, finishedAt: nat): Row {
    var begun := row.(attempts := row.attempts + 1, lastAttemptAt := Some(now), updatedAt := finishedAt);
    match handler
    case Raises(_, error) => begun.(status := Status.Failed, lastError := Some(Truncated(error)))
    case Returns(_) =>
      if row.channel == Telegram then begun.(status := Delivering, lastError := Some(""))
      else begun.(status := Status.Sent, sentAt := Some(finishedAt), lastError := Some(""))
  }

  /** Otherwise a row that the constraint lets in gets one attempt, and ends as its handler says:
      FAILED with the error if it raised, else DELIVERING or SENT by the channel. The constraint
      refuses no task that it has let in. */
  lemma TaskRuns(t: Tables, id: Id, timeout: nat, checkedAt: nat, now: nat, handler: Handler, finishedAt: nat)
    requires id in t.rows && t.rows[id].status in {Pending, Processing, Status.Failed}
    requires t.rows[id].status == Processing ==>
      && (t.rows[id].lastAttemptAt.None? || t.rows[id].lastAttemptAt.value < checkedAt - timeout)
      && (forall l :: 0 <= l < |t.logs| ==> !SentLogOf(t.logs[l], id))
    requires !Conflicts(t.rows, id, t.rows[id].(status := Processing))
    ensures ProcessTx(t, id, timeout, checkedAt, now, handler, finishedAt) ==
      (Tables(t.rows[id := AfterTask(t.rows[id], handler, now, finishedAt)], t.logs + handler.logs),
       if handler.Raises? then Raised else Returned(true))
  {
    var row := t.rows[id];
    var begun := BegunRow(row, now);
    assert forall other :: other in t.rows ==>
      SameKey(t.rows[other], begun) == SameKey(t.rows[other], row.(status := Processing));
    assert BeginTx(t, id, timeout, checkedAt, now) == (t.(rows := t.rows[id := begun]), Begun(begun));
    var handled := Tables(t.rows[id := begun], t.logs + handler.logs);
    assert forall other :: other in handled.rows && other != id ==> handled.rows[other] == t.rows[other];
    assert handled.rows[id := AfterTask(row, handler, now, finishedAt)] ==
      t.rows[id := AfterTask(row, handler, now, finishedAt)];
  }

  // ---------- reaper passes ----------

  predicate SelectedProcessing(row: Row, cutoff: int) {
    row.status.Processing? && (row.lastAttemptAt.None? || row.lastAttemptAt.value < cutoff)
  }

  predicate SelectedPending(row: Row, cutoff: int) {
    row.status.Pending? && row.createdAt < cutoff
  }

  predicate Ascending(ids: seq<Id>) {
    forall i, j :: 0 <= i < j < |ids| ==> ids[i] < ids[j]
  }

  lemma SameSet(a: set<Id>, b: set<Id>)
    requires forall id :: id in a <==> id in b
    ensures a == b
  {
    forall id: Id ensures id in a <==> id in b {}
  }

  lemma HasOne(ids: set<Id>)
    requires ids != {}
    ensures exists id :: id in ids
  {
    if forall id :: id !in ids { SameSet(ids, {}); }
  }

  predicate IsLeast(least: Id, ids: set<Id>) {
    least in ids && forall id :: id in ids ==> least <= id
  }

  lemma {:induction false} HasLeast(ids: set<Id>)
    requires ids != {}
    ensures exists least :: IsLeast(least, ids)
  {
    HasOne(ids);
    var one :| one in ids;
    var rest := ids - {one};
    if exists id :: id in rest {
      HasLeast(rest);
      var other :| IsLeast(other, rest);
      LeastOfTwo(ids, one, other);
    } else {
      assert forall id :: id in ids ==> id == one || id in rest;
      assert IsLeast(one, ids);
    }
  }

  lemma LeastOfTwo(ids: set<Id>, one: Id, other: Id)
    requires one in ids && IsLeast(other, ids - {one})
    ensures IsLeast(if one < other then one else other, ids)
  {
    assert forall id :: id in ids ==> id == one || id in ids - {one};
  }

  /** The ids of a query in their order. */
  function Ordered(ids: set<Id>): (r: seq<Id>)
    ensures Ascending(r) && forall id :: id in r <==> id in ids
  {
    if ids == {} then []
    else
      HasLeast(ids);
      var least :| IsLeast(least, ids);
      [least] + Ordered(ids - {least})
  }

  function StuckProcessing(rows: map<Id, Row>, cutoff: int): (r: seq<Id>)
    ensures Ascending(r)
    ensures forall id :: id in r <==>
      id in rows && rows[id].status == Processing &&
      (rows[id].lastAttemptAt.None? || rows[id].lastAttemptAt.value < cutoff)
  {
    Ordered(set id | id in rows && SelectedProcessing(rows[id], cutoff))
  }

  function StalePending(rows: map<Id, Row>, cutoff: int): (r: seq<Id>)
    ensures Ascending(r)
    ensures forall id :: id in r <==> id in rows && rows[id].status == Pending && rows[id].createdAt < cutoff
  {
    Ordered(set id | id in rows && SelectedPending(rows[id], cutoff))
  }

  /** What an iteration finds once it holds the row lock: others may have changed anything before. */
  datatype Moment = Moment(tables: Tables, now: nat)

  datatype Reaped = Reaped(tables: Tables, queue: seq<Id>, count: nat, missing: bool)

  /** An iteration of the processing reaper; a row deleted since it was selected aborts the pass. */
  function ReapOne(before: Reaped, m: Moment, id: Id, cutoff: int, maxAttempts: int): Reaped {
    if before.missing then before
    else
      var (tables, result) := ReapTx(m.tables, id, cutoff, maxAttempts, m.now);
      match result
      case Missing => before.(tables := tables, missing := true)
      case Skipped => before.(tables := tables)
      case Requeue => Reaped(tables, before.queue + [id], before.count + 1, false)
      case Reconciled => before.(tables := tables, count := before.count + 1)
      case Exhausted => before.(tables := tables, count := before.count + 1)
  }

  /** The loop over the selected ids: iteration n finds found[n] under its lock. */
  function ReapEach(t: Tables, queue: seq<Id>, ids: seq<Id>, found: seq<Moment>, cutoff: int, maxAttempts: int): Reaped
    requires |ids| <= |found|
  {
    if ids == [] then Reaped(t, queue, 0, false)
    else
      var n := |ids| - 1;
      ReapOne(ReapEach(t, queue, ids[..n], found, cutoff, maxAttempts), found[n], ids[n], cutoff, maxAttempts)
  }

  /** The loop when nobody interferes: each iteration finds what the one before has left. */
  function ReapAll(t: Tables, queue: seq<Id>, ids: seq<Id>, cutoff: int, maxAttempts: int, now: nat): Reaped {
    if ids == [] then Reaped(t, queue, 0, false)
    else
      var n := |ids| - 1;
      var before := ReapAll(t, queue, ids[..n], cutoff, maxAttempts, now);
      ReapOne(before, Moment(before.tables, now), ids[n], cutoff, maxAttempts)
  }

  /** An iteration of the pending reaper. */
  function ReapPendingOne(before: Reaped, t: Tables, id: Id, cutoff: int): Reaped {
    if before.missing then before
    else
      match ReapPendingTx(t, id, cutoff)
      case Missing => before.(tables := t, missing := true)
      case Requeue => Reaped(t, before.queue + [id], before.count + 1, false)
      case _ => before.(tables := t)
  }

  function ReapEachPending(t: Tables, queue: seq<Id>, ids: seq<Id>, found: seq<Moment>, cutoff: int): Reaped
    requires |ids| <= |found|
  {
    if ids == [] then Reaped(t, queue, 0, false)
    else
      var n := |ids| - 1;
      ReapPendingOne(ReapEachPending(t, queue, ids[..n], found, cutoff), found[n].tables, ids[n], cutoff)
  }

  function ReapAllPending(t: Tables, queue: seq<Id>, ids: seq<Id>, cutoff: int): Reaped {
    if ids == [] then Reaped(t, queue, 0, false)
    else ReapPendingOne(ReapAllPending(t, queue, ids[..|ids| - 1], cutoff), t, ids[|ids| - 1], cutoff)
  }

  /** The second loop of a pass: `between` is what its query reads. */
  function ThenPending(first: Reaped, between: Tables, pending: seq<Moment>, cutoff: int): Reaped
    requires |StalePending(between.rows, cutoff)| <= |pending|
  {
    if first.missing then first
    else
      var second := ReapEachPending(between, first.queue, StalePending(between.rows, cutoff), pending, cutoff);
      second.(count := first.count + second.count)
  }

  /** A whole pass among other sessions. */
  function ReapPassEach(t: Tables, queue: seq<Id>, processing: seq<Moment>, between: Tables, pending: seq<Moment>,
                        cutoff: int, maxAttempts: int): Reaped
    requires |StuckProcessing(t.rows, cutoff)| <= |processing| && |StalePending(between.rows, cutoff)| <= |pending|
  {
    ThenPending(ReapEach(t, queue, StuckProcessing(t.rows, cutoff), processing, cutoff, maxAttempts), between, pending,
      cutoff)
  }

  /** A whole pass when nobody interferes. */
  function ReapPass(t: Tables, queue: seq<Id>, cutoff: int, maxAttempts: int, now: nat): Reaped {
    var first := ReapAll(t, queue, StuckProcessing(t.rows, cutoff), cutoff, maxAttempts, now);
    if first.missing then first
    else
      var second := ReapAllPending(first.tables, first.queue, StalePending(first.tables.rows, cutoff), cutoff);
      second.(count := first.count + second.count)
  }

  class NotificationStore {
    var rows: map<Id, Row>
    var logs: seq<EmailLog>
    var queue: seq<Id>   // ids handed to the task broker
    var nextId: Id

    ghost function Db(): Tables
      reads this
    {
      Tables(rows, logs)
    }

    constructor ()
      ensures Db() == Tables(map[], []) && queue == [] && nextId == 0
    {
      rows, logs, queue, nextId := map[], [], [], 0;
    }

    /** Write one row; the database refuses it when the partial unique constraint would break. */
    method Save(id: Id, outbox: Row) returns (ok: bool)
      modifies this`rows
      ensures ok == !Conflicts(old(rows), id, outbox)
      ensures rows == if ok then old(rows)[id := outbox] else old(rows)
    {
      ok := !Conflicts(rows, id, outbox);
      if ok {
        rows := rows[id := outbox];
      }
    }

    method CreateNotificationOutbox(channel: Channel, kind: string, target: Option<Target>, now: nat)
      returns (result: CreateResult)
      modifies this`rows, this`nextId
      ensures result.IntegrityError? <==> Conflicts(old(rows), old(nextId), NewRow(channel, kind, target, now))
      ensures result.IntegrityError? ==> rows == old(rows) && nextId == old(nextId)
      ensures result.Created? ==>
        && result.id == old(nextId) && nextId == old(nextId) + 1
        && rows == old(rows)[result.id := Row(channel, kind, target, Pending, 0, None, None, None, now, now)]
    {
      var outbox := Row(channel, kind, target, Pending, 0, None, None, None, now, now);
      var ok := Save(nextId, outbox);
      if !ok {
        return IntegrityError;
      }
      result := Created(nextId);
      nextId := nextId + 1;
    }

    method ReconcileFromSentLog(id: Id, outbox: Row, now: nat) returns (done: bool)
      requires id in rows && rows[id] == outbox
      modifies this`rows
      ensures done <==> exists l :: 0 <= l < |logs| && SentLogOf(logs[l], id)
      ensures done ==> rows.Keys == old(rows).Keys && Reconciliation(logs, id, outbox, rows[id], now)
      ensures rows == if done then old(rows)[id := ReconciledRow(outbox, logs[LatestSentLog(logs, id).value], now)]
        else old(rows)
    {
      var sentLog := LatestSentLog(logs, id);
      if sentLog.None? {
        return false;
      }
      var row := outbox;
      row := row.(status := Status.Sent);
      row := row.(sentAt := Some(if logs[sentLog.value].sentAt.Some? then logs[sentLog.value].sentAt.value else now));
      row := row.(lastError := Some(""), updatedAt := now);
      done := Save(id, row);
      ReconciledFromLatest(logs, id, outbox, now);
    }

    /** Some(result) stops processing with that result; None continues with a send. */
    method HandleStaleProcessing(id: Id, timeout: nat, checkedAt: nat, now: nat) returns (stop: Option<bool>, ok: bool)
      requires id in rows && rows[id].status.Processing?
      modifies this`rows
      ensures stop == Some(false) <==> !Stale(old(rows)[id], checkedAt - timeout)
      ensures stop == Some(true) <==> Stale(old(rows)[id], checkedAt - timeout) && LatestSentLog(logs, id).Some?
      ensures stop == Some(false) ==> rows == old(rows)
      ensures stop == Some(true) ==>
        rows == old(rows)[id := ReconciledRow(old(rows)[id], logs[LatestSentLog(logs, id).value], now)]
      ensures stop == None && ok ==> rows == old(rows)[id := old(rows)[id].(status := Pending, updatedAt := now)]
      ensures stop == None ==> ok == !Conflicts(old(rows), id, BegunRow(old(rows)[id], now))
    {
      var outbox := rows[id];
      ok := true;
      if outbox.lastAttemptAt.Some? && outbox.lastAttemptAt.value >= checkedAt - timeout {
        return Some(false), true;
      }
      var reconciled := ReconcileFromSentLog(id, outbox, now);
      if reconciled {
        return Some(true), true;
      }
      outbox := outbox.(status := Pending, updatedAt := now);
      ok := Save(id, outbox);
      stop := None;
      assert ok == !Conflicts(old(rows), id, BegunRow(old(rows)[id], now)) by {
        assert forall other :: other in rows ==>
          SameKey(rows[other], outbox) == SameKey(rows[other], BegunRow(old(rows)[id], now));
      }
    }

    method LockAndBegin(id: Id, timeout: nat, checkedAt: nat, now: nat) returns (result: BeginResult)
      modifies this`rows
      ensures (Db(), result) == BeginTx(old(Db()), id, timeout, checkedAt, now)
      ensures result.Begun? ==>
        && id in old(rows) && rows == old(rows)[id := result.outbox]
        && result.outbox == old(rows)[id].(status := Processing, attempts := old(rows)[id].attempts + 1,
          lastAttemptAt := Some(now), lastError := Some(""), updatedAt := now)
      ensures result != Finished(true) && !result.Begun? ==> rows == old(rows)
    {
      var savepoint := rows;
      if id !in rows {
        return BeginResult.Missing;
      }
      if rows[id].status.Sent? {
        return Finished(false);
      }
      if rows[id].status.Delivering? {
        return Finished(false);
      }
      if rows[id].status.Processing? {
        var stop, ok := HandleStaleProcessing(id, timeout, checkedAt, now);
        if stop.Some? {
          return Finished(stop.value);
        }
        if !ok {
          rows := savepoint;
          return BeginResult.Rejected;
        }
      }
      var outbox := rows[id];
      outbox := outbox.(status := Processing);
      outbox := outbox.(attempts := outbox.attempts + 1);
      outbox := outbox.(lastAttemptAt := Some(now));
      outbox := outbox.(lastError := Some(""), updatedAt := now);
      var ok := Save(id, outbox);
      if !ok {
        rows := savepoint;
        return BeginResult.Rejected;
      }
      assert rows == savepoint[id := outbox];
      result := Begun(outbox);
    }

    // The three final writes: lock the row again and set the status, whatever it has become.

    method MarkFailed(id: Id, error: string, now: nat) returns (result: WriteResult)
      modifies this`rows
      ensures (Db(), result) == FailTx(old(Db()), id, error, now)
      ensures result.Missing? <==> id !in old(rows)
      ensures rows == if !result.Written? then old(rows) else old(rows)[id :=
        old(rows)[id].(status := Status.Failed, lastError := Some(Truncated(error)), updatedAt := now)]
    {
      if id !in rows {
        return WriteResult.Missing;
      }
      var outbox := rows[id];
      outbox := outbox.(status := Status.Failed);
      outbox := outbox.(lastError := Some(Truncated(error)), updatedAt := now);
      var ok := Save(id, outbox);
      result := if ok then Written else WriteResult.Rejected;
    }

    method MarkDelivering(id: Id, now: nat) returns (result: WriteResult)
      modifies this`rows
      ensures (Db(), result) == DeliverTx(old(Db()), id, now)
      ensures result.Missing? <==> id !in old(rows)
      ensures rows == if !result.Written? then old(rows) else old(rows)[id :=
        old(rows)[id].(status := Delivering, lastError := Some(""), updatedAt := now)]
    {
      if id !in rows {
        return WriteResult.Missing;
      }
      var outbox := rows[id];
      outbox := outbox.(status := Delivering);
      outbox := outbox.(lastError := Some(""), updatedAt := now);
      var ok := Save(id, outbox);
      result := if ok then Written else WriteResult.Rejected;
    }

    method MarkSent(id: Id, now: nat) returns (result: WriteResult)
      modifies this`rows
      ensures (Db(), result) == SendTx(old(Db()), id, now)
      ensures result.Missing? <==> id !in old(rows)
      ensures rows == if !result.Written? then old(rows) else old(rows)[id :=
        old(rows)[id].(status := Status.Sent, sentAt := Some(now), lastError := Some(""), updatedAt := now)]
    {
      if id !in rows {
        return WriteResult.Missing;
      }
      var outbox := rows[id];
      outbox := outbox.(status := Status.Sent);
      outbox := outbox.(sentAt := Some(now));
      outbox := outbox.(lastError := Some(""), updatedAt := now);
      var ok := Save(id, outbox);
      result := if ok then Written else WriteResult.Rejected;
    }

    method ProcessNotificationOutbox(id: Id, timeout: nat, checkedAt: nat, now: nat, handler: Handler, finishedAt: nat)
      returns (result: ProcessResult)
      modifies this`rows, this`logs
      ensures (Db(), result) == ProcessTx(old(Db()), id, timeout, checkedAt, now, handler, finishedAt)
    {
      var begin := LockAndBegin(id, timeout, checkedAt, now);
      if begin.Missing? || begin.Rejected? {
        return Raised;
      }
      if begin.Finished? {
        return Returned(begin.value);
      }
      logs := logs + handler.logs;
      if handler.Raises? {
        var _ := MarkFailed(id, handler.error, finishedAt);
        return Raised;
      }
      var written;
      if begin.outbox.channel.Telegram? {
        written := MarkDelivering(id, finishedAt);
      } else {
        written := MarkSent(id, finishedAt);
      }
      result := if written.Written? then Returned(true) else Raised;
    }

    /** send_outbound_email: the log is created queued and then moves to its final status. The
        recipient is the normalized address. */
    method SendOutboundEmail(outbox: Option<Id>, recipient: string, suppressed: bool, smtp: Smtp, now: nat)
      returns (result: SendResult)
      modifies this`logs
      ensures recipient == "" ==> result.NoRecipient?
      ensures result.OutboxGone? <==> recipient != "" && outbox.Some? && outbox.value !in rows
      ensures result.NoRecipient? || result.OutboxGone? ==> logs == old(logs)
      ensures !result.NoRecipient? && !result.OutboxGone? ==>
        var status := if suppressed then Suppressed else if smtp.Accepts? then LogStatus.Sent else LogStatus.Failed;
        && logs == old(logs) + [EmailLog(outbox, recipient, status, if status.Sent? then Some(now) else None)]
        && result == if suppressed then EmailSuppressed else if smtp.Accepts? then Logged(|old(logs)|) else EmailFailed
    {
      if recipient == "" {
        return NoRecipient;
      }
      // creating the log fails on the foreign key when the outbox row has been deleted
      if outbox.Some? && outbox.value !in rows {
        return OutboxGone;
      }
      var log := |logs|;
      if suppressed {
        logs := logs + [EmailLog(outbox, recipient, Suppressed, None)];
        return EmailSuppressed;
      }
      logs := logs + [EmailLog(outbox, recipient, Queued, None)];
      if smtp.Refuses? {
        logs := logs[log := logs[log].(status := LogStatus.Failed)];
        return EmailFailed;
      }
      logs := logs[log := logs[log].(status := LogStatus.Sent)];
      logs := logs[log := logs[log].(sentAt := Some(now))];
      result := Logged(log);
    }

    /** The deletion of a query set reads its rows first, since logs refer to them ... */
    method SelectOldSent(now: nat, kind: Option<string>, retentionDays: int) returns (ids: set<Id>)
      ensures forall id :: id in ids <==>
        id in rows && rows[id].status.Sent? && rows[id].sentAt.Some? &&
        (kind.None? || rows[id].kind == kind.value) && rows[id].sentAt.value < now - retentionDays * 86400
    {
      ids := OldSent(rows, now - retentionDays * DAY, kind);
    }

    method SelectOldFailed(now: nat, kind: Option<string>, retentionDays: int) returns (ids: set<Id>)
      ensures forall id :: id in ids <==>
        id in rows && rows[id].status.Failed? &&
        (kind.None? || rows[id].kind == kind.value) && rows[id].updatedAt < now - retentionDays * 86400
    {
      ids := OldFailed(rows, now - retentionDays * DAY, kind);
    }

    /** ... and then deletes by id, whatever the rows have become meanwhile. */
    method DeleteSelected(ids: set<Id>) returns (deleted: nat)
      modifies this`rows, this`logs
      ensures Db() == Deleted(old(Db()), ids)
      ensures deleted == |ids * old(rows).Keys|
      ensures rows.Keys == old(rows).Keys - ids && forall id :: id in rows ==> rows[id] == old(rows)[id]
      ensures |logs| == |old(logs)| && forall l :: 0 <= l < |logs| ==>
        logs[l] == if old(logs)[l].outbox.Some? && old(logs)[l].outbox.value in ids
          then old(logs)[l].(outbox := None) else old(logs)[l]
    {
      deleted := |ids * rows.Keys|;
      rows, logs := rows - ids, DetachedAll(logs, ids);
    }

    /** cleanup_old_notification_outboxes, over all notification types or one, undisturbed. */
    method CleanupOldOutboxes(now: nat, kind: Option<string>, sentRetentionDays: int, failedRetentionDays: int)
      returns (sentDeleted: nat, failedDeleted: nat)
      modifies this`rows, this`logs
      ensures var sent := OldSent(old(rows), now - sentRetentionDays * DAY, kind);
        var failed := OldFailed(old(rows), now - failedRetentionDays * DAY, kind);
        Db() == Deleted(old(Db()), sent + failed) && sentDeleted == |sent| && failedDeleted == |failed|
    {
      var sent := SelectOldSent(now, kind, sentRetentionDays);
      SameSet(sent, OldSent(rows, now - sentRetentionDays * DAY, kind));
      SameSet(sent, sent * rows.Keys);
      sentDeleted := DeleteSelected(sent);
      var failed := SelectOldFailed(now, kind, failedRetentionDays);
      SameSet(failed, OldFailed(old(rows), now - failedRetentionDays * DAY, kind));
      SameSet(failed, failed * rows.Keys);
      DeletedTwice(old(Db()), sent, failed);
      failedDeleted := DeleteSelected(failed);
    }

    method MarkFailedMaxAttempts(id: Id, now: nat)
      requires id in rows
      modifies this`rows
      ensures rows == old(rows)[id := FailedRow(old(rows)[id], ATTEMPTS_EXHAUSTED, now)]
      ensures rows[id] == old(rows)[id].(status := Status.Failed,
        lastError := Some("notification outbox processing attempts exhausted"), updatedAt := now)
    {
      var outbox := rows[id];
      outbox := outbox.(status := Status.Failed, lastError := Some(ATTEMPTS_EXHAUSTED), updatedAt := now);
      var _ := Save(id, outbox);
    }

    /** The transaction of one iteration of the processing reaper, on what it finds under its lock. */
    method ReapRow(m: Moment, id: Id, cutoff: int, maxAttempts: int) returns (result: ReapResult)
      modifies this`rows, this`logs
      ensures (Db(), result) == ReapTx(m.tables, id, cutoff, maxAttempts, m.now)
      ensures result.Missing? <==> id !in m.tables.rows
      ensures result.Skipped? <==> id in m.tables.rows && var row := m.tables.rows[id];
        !row.status.Processing? || (row.lastAttemptAt.Some? && row.lastAttemptAt.value >= cutoff)
      ensures !result.Missing? && !result.Skipped? ==>
        var sent := exists l :: 0 <= l < |logs| && SentLogOf(logs[l], id);
        && id in rows && (result.Reconciled? <==> sent)
        && (result.Exhausted? <==> !sent && m.tables.rows[id].attempts >= maxAttempts)
        && (result.Reconciled? ==> Reconciliation(logs, id, m.tables.rows[id], rows[id], m.now))
        && (result.Exhausted? ==> rows[id] == m.tables.rows[id].(status := Status.Failed,
            lastError := Some("notification outbox processing attempts exhausted"), updatedAt := m.now))
    {
      rows, logs := m.tables.rows, m.tables.logs;
      if id !in rows {
        return ReapResult.Missing;
      }
      if !rows[id].status.Processing? {
        return Skipped;
      }
      if rows[id].lastAttemptAt.Some? && rows[id].lastAttemptAt.value >= cutoff {
        return Skipped;
      }
      var reconciled := ReconcileFromSentLog(id, rows[id], m.now);
      if reconciled {
        return Reconciled;
      }
      if rows[id].attempts >= maxAttempts {
        MarkFailedMaxAttempts(id, m.now);
        return Exhausted;
      }
      result := Requeue;
    }

    /** Its loop over the selected ids; None when a selected row no longer exists. */
    method ReapSelected(ids: seq<Id>, cutoff: int, maxAttempts: int, found: seq<Moment>) returns (reaped: Option<nat>)
      requires |ids| <= |found|
      modifies this`rows, this`logs, this`queue
      ensures var spec := ReapEach(old(Db()), old(queue), ids, found, cutoff, maxAttempts);
        Db() == spec.tables && queue == spec.queue && reaped == if spec.missing then None else Some(spec.count)
    {
      var count := 0;
      for i := 0 to |ids|
        invariant ReapEach(old(Db()), old(queue), ids[..i], found, cutoff, maxAttempts) ==
          Reaped(Db(), queue, count, false)
      {
        assert ids[..i + 1][..i] == ids[..i];
        var result := ReapRow(found[i], ids[i], cutoff, maxAttempts);
        if result.Missing? {
          MissingEndsPass(old(Db()), old(queue), ids, i + 1, found, cutoff, maxAttempts);
          return None;
        }
        if result.Skipped? {
          continue;
        }
        if result.Requeue? {
          queue := queue + [ids[i]];
        }
        count := count + 1;
      }
      assert ids[..|ids|] == ids;
      reaped := Some(count);
    }

    /** The processing reaper among other sessions: found[n] is what iteration n finds under its lock. */
    method ReapStuckProcessing(cutoff: int, maxAttempts: int, found: seq<Moment>) returns (reaped: Option<nat>)
      requires |StuckProcessing(rows, cutoff)| <= |found|
      modifies this`rows, this`logs, this`queue
      ensures var spec := ReapEach(old(Db()), old(queue), StuckProcessing(old(rows), cutoff), found, cutoff,
        maxAttempts);
        Db() == spec.tables && queue == spec.queue && reaped == if spec.missing then None else Some(spec.count)
    {
      reaped := ReapSelected(StuckProcessing(rows, cutoff), cutoff, maxAttempts, found);
    }

    method ReapSelectedPending(ids: seq<Id>, cutoff: int, found: seq<Moment>) returns (reaped: Option<nat>)
      requires |ids| <= |found|
      modifies this`rows, this`logs, this`queue
      ensures var spec := ReapEachPending(old(Db()), old(queue), ids, found, cutoff);
        Db() == spec.tables && queue == spec.queue && reaped == if spec.missing then None else Some(spec.count)
    {
      var count := 0;
      for i := 0 to |ids|
        invariant ReapEachPending(old(Db()), old(queue), ids[..i], found, cutoff) == Reaped(Db(), queue, count, false)
      {
        var id := ids[i];
        assert ids[..i + 1][..i] == ids[..i];
        rows, logs := found[i].tables.rows, found[i].tables.logs;
        assert Db() == found[i].tables;
        if id !in rows {
          MissingEndsPendingPass(old(Db()), old(queue), ids, i + 1, found, cutoff);
          return None;
        }
        if !rows[id].status.Pending? {
          continue;
        }
        if rows[id].createdAt >= cutoff {
          continue;
        }
        queue := queue + [id];
        count := count + 1;
      }
      assert ids[..|ids|] == ids;
      reaped := Some(count);
    }

    method ReapStalePending(cutoff: int, found: seq<Moment>) returns (reaped: Option<nat>)
      requires |StalePending(rows, cutoff)| <= |found|
      modifies this`rows, this`logs, this`queue
      ensures var spec := ReapEachPending(old(Db()), old(queue), StalePending(old(rows), cutoff), found, cutoff);
        Db() == spec.tables && queue == spec.queue && reaped == if spec.missing then None else Some(spec.count)
    {
      reaped := ReapSelectedPending(StalePending(rows, cutoff), cutoff, found);
    }

    /** One reaper pass among other sessions; the second query runs after the first loop. */
    method ReapStuckNotificationOutboxes(cutoff: int, maxAttempts: int, processing: seq<Moment>, between: Tables,
                                         pending: seq<Moment>)
      returns (reaped: Option<nat>)
      requires |StuckProcessing(rows, cutoff)| <= |processing| && |StalePending(between.rows, cutoff)| <= |pending|
      modifies this`rows, this`logs, this`queue
      ensures var spec := ReapPassEach(old(Db()), old(queue), processing, between, pending, cutoff, maxAttempts);
        Db() == spec.tables && queue == spec.queue && reaped == if spec.missing then None else Some(spec.count)
    {
      ghost var first := ReapEach(Db(), queue, StuckProcessing(rows, cutoff), processing, cutoff, maxAttempts);
      var processingReaped := ReapStuckProcessing(cutoff, maxAttempts, processing);
      if processingReaped.None? {
        return None;
      }
      rows, logs := between.rows, between.logs;
      reaped := ReapPendingAfter(processingReaped.value, cutoff, pending, first);
    }

    /** The rest of a pass whose first loop has counted some rows. */
    method ReapPendingAfter(processingReaped: nat, cutoff: int, pending: seq<Moment>, ghost first: Reaped)
      returns (reaped: Option<nat>)
      requires |StalePending(rows, cutoff)| <= |pending|
      requires queue == first.queue && !first.missing && first.count == processingReaped
      modifies this`rows, this`logs, this`queue
      ensures var spec := ThenPending(first, old(Db()), pending, cutoff);
        Db() == spec.tables && queue == spec.queue && reaped == if spec.missing then None else Some(spec.count)
    {
      var pendingReaped := ReapStalePending(cutoff, pending);
      if pendingReaped.None? {
        return None;
      }
      reaped := Some(processingReaped + pendingReaped.value);
    }
  }

  /** Once a pass has met a deleted row, the rest of its ids are not looked at. */
  lemma {:induction false} MissingEndsPass(t: Tables, queue: seq<Id>, ids: seq<Id>, n: nat, found: seq<Moment>,
                                           cutoff: int,
                                           maxAttempts: int)
    requires n <= |ids| <= |found| && ReapEach(t, queue, ids[..n], found, cutoff, maxAttempts).missing
    ensures ReapEach(t, queue, ids, found, cutoff, maxAttempts) ==
      ReapEach(t, queue, ids[..n], found, cutoff, maxAttempts)
    decreases |ids|
  {
    if n == |ids| {
      assert ids[..n] == ids;
    } else {
      assert ids[..|ids| - 1][..n] == ids[..n];
      MissingEndsPass(t, queue, ids[..|ids| - 1], n, found, cutoff, maxAttempts);
    }
  }

  lemma {:induction false} MissingEndsPendingPass(t: Tables, queue: seq<Id>, ids: seq<Id>, n: nat, found: seq<Moment>,
                                                  cutoff: int)
    requires n <= |ids| <= |found| && ReapEachPending(t, queue, ids[..n], found, cutoff).missing
    ensures ReapEachPending(t, queue, ids, found, cutoff) == ReapEachPending(t, queue, ids[..n], found, cutoff)
    decreases |ids|
  {
    if n == |ids| {
      assert ids[..n] == ids;
    } else {
      assert ids[..|ids| - 1][..n] == ids[..n];
      MissingEndsPendingPass(t, queue, ids[..|ids| - 1], n, found, cutoff);
    }
  }

  /** Some iteration of a loop over selected rows finds its row deleted. */
  ghost predicate MeetsDeleted(ids: seq<Id>, found: seq<Moment>)
    requires |ids| <= |found|
  {
    exists n: nat :: n < |ids| && ids[n] !in found[n].tables.rows
  }

  lemma MeetsDeletedSnoc(ids: seq<Id>, found: seq<Moment>)
    requires ids != [] && |ids| <= |found|
    ensures var n := |ids| - 1;
      MeetsDeleted(ids, found) <==> MeetsDeleted(ids[..n], found) || ids[n] !in found[n].tables.rows
  {
    var n := |ids| - 1;
    if MeetsDeleted(ids[..n], found) {
      var m: nat :| m < n && ids[..n][m] !in found[m].tables.rows;
      assert ids[m] !in found[m].tables.rows;
    }
  }

  // ---------- nobody interferes ----------

  /** Each iteration of the processing loop finds what the one before has left. */
  ghost predicate Undisturbed(t: Tables, queue: seq<Id>, ids: seq<Id>, found: seq<Moment>, cutoff: int,
                              maxAttempts: int, now: nat) {
    |ids| <= |found| && forall n: nat :: n < |ids| ==>
      found[n] == Moment(ReapAll(t, queue, ids[..n], cutoff, maxAttempts, now).tables, now)
  }

  lemma {:induction false} UndisturbedLoop(t: Tables, queue: seq<Id>, ids: seq<Id>, found: seq<Moment>, cutoff: int,
                                           maxAttempts: int, now: nat)
    requires Undisturbed(t, queue, ids, found, cutoff, maxAttempts, now)
    ensures ReapEach(t, queue, ids, found, cutoff, maxAttempts) == ReapAll(t, queue, ids, cutoff, maxAttempts, now)
  {
    if ids != [] {
      var before := ids[..|ids| - 1];
      forall n: nat | n < |before| ensures before[..n] == ids[..n] {}
      UndisturbedLoop(t, queue, before, found, cutoff, maxAttempts, now);
    }
  }

  lemma {:induction false} UndisturbedPendingLoop(t: Tables, queue: seq<Id>, ids: seq<Id>, found: seq<Moment>,
                                                  cutoff: int)
    requires |ids| <= |found| && forall n: nat :: n < |ids| ==> found[n].tables == t
    ensures ReapEachPending(t, queue, ids, found, cutoff) == ReapAllPending(t, queue, ids, cutoff)
  {
    if ids != [] { UndisturbedPendingLoop(t, queue, ids[..|ids| - 1], found, cutoff); }
  }

  /** The pass of the code, when nobody interferes. */
  lemma UndisturbedPass(t: Tables, queue: seq<Id>, processing: seq<Moment>, pending: seq<Moment>, cutoff: int,
                        maxAttempts: int,
                        now: nat)
    requires Undisturbed(t, queue, StuckProcessing(t.rows, cutoff), processing, cutoff, maxAttempts, now)
    requires var between := ReapAll(t, queue, StuckProcessing(t.rows, cutoff), cutoff, maxAttempts, now).tables;
      |StalePending(between.rows, cutoff)| <= |pending| && forall n: nat :: n < |pending| ==>
        pending[n].tables == between
    ensures var between := ReapAll(t, queue, StuckProcessing(t.rows, cutoff), cutoff, maxAttempts, now).tables;
      ReapPassEach(t, queue, processing, between, pending, cutoff, maxAttempts) ==
        ReapPass(t, queue, cutoff, maxAttempts, now)
  {
    var first := ReapAll(t, queue, StuckProcessing(t.rows, cutoff), cutoff, maxAttempts, now);
    UndisturbedLoop(t, queue, StuckProcessing(t.rows, cutoff), processing, cutoff, maxAttempts, now);
    UndisturbedPendingLoop(first.tables, first.queue, StalePending(first.tables.rows, cutoff), pending, cutoff);
  }
}
