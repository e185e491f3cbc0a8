/** The notification outbox and email log tables, and what each database transaction of
    apps/notifications does to them. A transaction is a function from tables to tables: the
    row lock makes it one atomic step. Clock readings are parameters. */
module OutboxTables {
  import opened Wrappers

  type Id = int

  datatype Channel = Email | Telegram

  datatype Status = Pending | Processing | Delivering | Sent | Failed

  datatype Target = Target(contentType: int, objectId: int)

  datatype Row = Row(
    channel: Channel,
    kind: string,
    target: Option<Target>,
    status: Status,
    attempts: nat,
    lastError: Option<string>,
    lastAttemptAt: Option<nat>,
    sentAt: Option<nat>,
    createdAt: nat,
    updatedAt: nat)

  datatype LogStatus = Queued | Sent | Failed | Suppressed

  datatype EmailLog = EmailLog(outbox: Option<Id>, recipient: string, status: LogStatus, sentAt: Option<nat>)

  /** The id of an email log is its index. */
  datatype Tables = Tables(rows: map<Id, Row>, logs: seq<EmailLog>)

  const MAX_LAST_ERROR_LENGTH := 512
  const ATTEMPTS_EXHAUSTED := "notification outbox processing attempts exhausted"

  function Truncated(error: string): (r: string)
    ensures |error| <= 512 ==> r == error
    ensures |error| > 512 ==> |r| == 512 && r <= error
  {
    if |error| <= MAX_LAST_ERROR_LENGTH then error else error[..MAX_LAST_ERROR_LENGTH]
  }

  // ---------- the partial unique constraint ----------

  predicate InFlight(row: Row) {
    row.status.Pending? || row.status.Processing? || row.status.Delivering?
  }

  predicate SameKey(a: Row, b: Row) {
    a.target.Some? && a.target == b.target && a.kind == b.kind && a.channel == b.channel
  }

  /** Writing `row` at `id` would violate the partial unique constraint. */
  predicate Conflicts(rows: map<Id, Row>, id: Id, row: Row) {
    InFlight(row) && exists other :: other in rows && other != id && InFlight(rows[other]) && SameKey(rows[other], row)
  }

  /** At most one in-flight row per notification type, target and channel. */
  ghost predicate OneInFlightPerTarget(rows: map<Id, Row>) {
    forall i, j :: (i in rows && j in rows && i != j &&
      rows[i].status in {Pending, Processing, Delivering} && rows[j].status in {Pending, Processing, Delivering}) ==>
        rows[i].target.None? || rows[i].target != rows[j].target || rows[i].kind != rows[j].kind ||
        rows[i].channel != rows[j].channel
  }

  // ---------- reading the email log ----------

  predicate SentLogOf(log: EmailLog, id: Id) {
    log.outbox == Some(id) && log.status.Sent?
  }

  /** In descending order of the sending time, PostgreSQL puts nulls first. */
  predicate Ahead(a: Option<nat>, b: Option<nat>) {
    b.Some? && (a.None? || a.value > b.value)
  }

  /** The sent log of the row with the greatest (sent_at, id), if the row has one. */
  function LatestSentLog(logs: seq<EmailLog>, id: Id): (r: Option<nat>)
    ensures r.None? <==> forall l :: 0 <= l < |logs| ==> !SentLogOf(logs[l], id)
    ensures r.Some? ==> r.value < |logs| && SentLogOf(logs[r.value], id)
  {
    if logs == [] then None
    else
      var last := |logs| - 1;
      var before := LatestSentLog(logs[..last], id);
      if !SentLogOf(logs[last], id) then before
      else if before.Some? && Ahead(logs[before.value].sentAt, logs[last].sentAt) then before
      else Some(last)
  }

  /** It is the first in the order of the query: no other sent log of the row is ahead of it. */
  lemma {:induction false} LatestSentLogIsFirst(logs: seq<EmailLog>, id: Id, l: nat)
    requires l < |logs| && SentLogOf(logs[l], id)
    ensures var first := LatestSentLog(logs, id).value;
      !Ahead(logs[l].sentAt, logs[first].sentAt) && (logs[l].sentAt == logs[first].sentAt ==> l <= first)
  {
    if l < |logs| - 1 {
      LatestSentLogIsFirst(logs[..|logs| - 1], id, l);
    } else if LatestSentLog(logs[..l], id).Some? {
      LatestSentLogIsFirst(logs[..l], id, LatestSentLog(logs[..l], id).value);
    }
  }

  /** The time that a reconciliation at `now` has to record: the latest sending time of the row's sent logs;
      one without a time comes first in the query and stands for the reconciliation itself. */
  ghost predicate SendingTime(logs: seq<EmailLog>, id: Id, now: nat, time: nat) {
    if exists l :: 0 <= l < |logs| && SentLogOf(logs[l], id) && logs[l].sentAt.None? then time == now
    else
      && (exists l :: 0 <= l < |logs| && SentLogOf(logs[l], id) && logs[l].sentAt == Some(time))
      && (forall l :: 0 <= l < |logs| && SentLogOf(logs[l], id) ==> logs[l].sentAt.value <= time)
  }

  /** The row has been set to SENT with that time, and nothing else about it has changed. */
  ghost predicate Reconciliation(logs: seq<EmailLog>, id: Id, before: Row, after: Row, now: nat) {
    && after.status == Status.Sent && after.sentAt.Some? && SendingTime(logs, id, now, after.sentAt.value)
    && after.lastError == Some("") && after.updatedAt == now
    && after == before.(status := after.status, sentAt := after.sentAt, lastError := after.lastError, updatedAt := now)
  }

  /** A reconciliation records the time of the send, not its own. */
  lemma ReconciledFromLatest(logs: seq<EmailLog>, id: Id, row: Row, now: nat)
    requires LatestSentLog(logs, id).Some?
    ensures Reconciliation(logs, id, row, ReconciledRow(row, logs[LatestSentLog(logs, id).value], now), now)
  {
    var first := LatestSentLog(logs, id).value;
    forall l | 0 <= l < |logs| && SentLogOf(logs[l], id) ensures !Ahead(logs[l].sentAt, logs[first].sentAt) {
      LatestSentLogIsFirst(logs, id, l);
    }
  }

  /** On deletion of an outbox row its logs stay, with the reference set to null. */
  function Detached(logs: seq<EmailLog>, id: Id): (r: seq<EmailLog>)
    ensures |r| == |logs|
    ensures forall l :: 0 <= l < |logs| ==>
      r[l] == if logs[l].outbox == Some(id) then logs[l].(outbox := None) else logs[l]
  {
    seq(|logs|, l requires 0 <= l < |logs| => if logs[l].outbox == Some(id) then logs[l].(outbox := None) else logs[l])
  }

  // ---------- rows written by the transactions ----------

  function NewRow(channel: Channel, kind: string, target: Option<Target>, now: nat): Row {
    Row(channel, kind, target, Pending, 0, None, None, None, now, now)
  }

  function BegunRow(row: Row, now: nat): Row {
    row.(status := Processing, attempts := row.attempts + 1, lastAttemptAt := Some(now),
         lastError := Some(""), updatedAt := now)
  }

  function FailedRow(row: Row, error: string, now: nat): Row {
    row.(status := Status.Failed, lastError := Some(error), updatedAt := now)
  }

  function DeliveringRow(row: Row, now: nat): Row {
    row.(status := Delivering, lastError := Some(""), updatedAt := now)
  }

  function SentRow(row: Row, sentAt: nat, now: nat): Row {
    row.(status := Status.Sent, sentAt := Some(sentAt), lastError := Some(""), updatedAt := now)
  }

  function ReconciledRow(row: Row, log: EmailLog, now: nat): Row {
    SentRow(row, if log.sentAt.Some? then log.sentAt.value else now, now)
  }

  predicate Stale(row: Row, cutoff: int) {
    row.lastAttemptAt.None? || row.lastAttemptAt.value < cutoff
  }

  // ---------- transactions ----------

  datatype BeginResult = Begun(outbox: Row) | Finished(value: bool) | Missing | Rejected

  /** Take the row lock and begin an attempt, or decide that there is nothing to do. The staleness
      cutoff is computed from `checkedAt`, the attempt is stamped with `now`. */
  function BeginTx(t: Tables, id: Id, timeout: nat, checkedAt: nat, now: nat): (Tables, BeginResult) {
    if id !in t.rows then (t, BeginResult.Missing)
    else
      var row := t.rows[id];
      if row.status.Sent? || row.status.Delivering? then (t, Finished(false))
      else if row.status.Processing? && !Stale(row, checkedAt - timeout) then (t, Finished(false))
      else
        var sent := LatestSentLog(t.logs, id);
        if row.status.Processing? && sent.Some? then
          (t.(rows := t.rows[id := ReconciledRow(row, t.logs[sent.value], now)]), Finished(true))
        else if Conflicts(t.rows, id, BegunRow(row, now)) then (t, BeginResult.Rejected)
        else (t.(rows := t.rows[id := BegunRow(row, now)]), Begun(BegunRow(row, now)))
  }

  datatype WriteResult = Written | Missing | Rejected

  /** Write one row, unless the constraint refuses it. */
  function WriteTx(t: Tables, id: Id, row: Row): (Tables, WriteResult) {
    if Conflicts(t.rows, id, row) then (t, WriteResult.Rejected) else (t.(rows := t.rows[id := row]), Written)
  }

  // The final writes of an attempt lock the row again and write, whatever its status is by then.

  function FailTx(t: Tables, id: Id, error: string, now: nat): (Tables, WriteResult) {
    if id in t.rows then WriteTx(t, id, FailedRow(t.rows[id], Truncated(error), now)) else (t, WriteResult.Missing)
  }

  function DeliverTx(t: Tables, id: Id, now: nat): (Tables, WriteResult) {
    if id in t.rows then WriteTx(t, id, DeliveringRow(t.rows[id], now)) else (t, WriteResult.Missing)
  }

  function SendTx(t: Tables, id: Id, now: nat): (Tables, WriteResult) {
    if id in t.rows then WriteTx(t, id, SentRow(t.rows[id], now, now)) else (t, WriteResult.Missing)
  }

  datatype FeedbackResult = Effective | Ignored | Missing

  /** Delivery confirmed by the bot: only a delivering row becomes sent. */
  function ConfirmTx(t: Tables, id: Id, now: nat): (Tables, FeedbackResult) {
    if id !in t.rows then (t, FeedbackResult.Missing)
    else if !t.rows[id].status.Delivering? then (t, Ignored)
    else (t.(rows := t.rows[id := SentRow(t.rows[id], now, now)]), Effective)
  }

  /** Delivery refused by the bot or timed out: only a delivering row becomes failed. */
  function FailDeliveryTx(t: Tables, id: Id, error: string, now: nat): (Tables, FeedbackResult) {
    if id !in t.rows then (t, FeedbackResult.Missing)
    else if !t.rows[id].status.Delivering? then (t, Ignored)
    else (t.(rows := t.rows[id := FailedRow(t.rows[id], Truncated(error), now)]), Effective)
  }

  datatype ReapResult = Skipped | Reconciled | Exhausted | Requeue | Missing

  /** One iteration of the processing reaper, under the row lock. */
  function ReapTx(t: Tables, id: Id, cutoff: int, maxAttempts: int, now: nat): (Tables, ReapResult) {
    if id !in t.rows then (t, ReapResult.Missing)
    else
      var row := t.rows[id];
      if !row.status.Processing? || !Stale(row, cutoff) then (t, Skipped)
      else
        var sent := LatestSentLog(t.logs, id);
        if sent.Some? then (t.(rows := t.rows[id := ReconciledRow(row, t.logs[sent.value], now)]), Reconciled)
        else if row.attempts >= maxAttempts
          then (t.(rows := t.rows[id := FailedRow(row, ATTEMPTS_EXHAUSTED, now)]), Exhausted)
        else (t, Requeue)
  }

  /** One iteration of the pending reaper, under the row lock. */
  function ReapPendingTx(t: Tables, id: Id, cutoff: int): (r: ReapResult)
    ensures r.Missing? <==> id !in t.rows
    ensures r.Requeue? <==> id in t.rows && t.rows[id].status == Pending && t.rows[id].createdAt < cutoff
  {
    if id !in t.rows then ReapResult.Missing
    else if t.rows[id].status.Pending? && t.rows[id].createdAt < cutoff then Requeue
    else Skipped
  }

  predicate Expired(row: Row, sentCutoff: int, failedCutoff: int) {
    || (row.status.Sent? && row.sentAt.Some? && row.sentAt.value < sentCutoff)
    || (row.status.Failed? && row.updatedAt < failedCutoff)
  }

  function DeleteTx(t: Tables, id: Id): Tables {
    Tables(t.rows - {id}, Detached(t.logs, id))
  }

  // ---------- what the constraint can and cannot reject ----------

  lemma WriteKeepsOneInFlight(rows: map<Id, Row>, id: Id, row: Row)
    requires OneInFlightPerTarget(rows) && !Conflicts(rows, id, row)
    ensures OneInFlightPerTarget(rows[id := row])
  {
    if InFlight(row) {
      assert forall other :: other in rows && other != id && InFlight(rows[other]) ==> !SameKey(rows[other], row);
    }
  }

  /** The database refuses exactly the writes that would break the constraint. */
  lemma RefusedIff(rows: map<Id, Row>, id: Id, row: Row)
    requires OneInFlightPerTarget(rows)
    ensures Conflicts(rows, id, row) <==> !OneInFlightPerTarget(rows[id := row])
  {
    var after := rows[id := row];
    if Conflicts(rows, id, row) {
      var other :| other in rows && other != id && InFlight(rows[other]) && SameKey(rows[other], row);
      assert after[other] == rows[other] && after[id] == row;
    } else {
      WriteKeepsOneInFlight(rows, id, row);
    }
  }

  /** A row that is in flight keeps its place: no later write of the same attempt can be rejected. */
  lemma InFlightRowNeverRejected(rows: map<Id, Row>, id: Id, row: Row)
    requires OneInFlightPerTarget(rows) && id in rows
    requires InFlight(row) ==> InFlight(rows[id])
    requires row.target == rows[id].target && row.kind == rows[id].kind && row.channel == rows[id].channel
    ensures !Conflicts(rows, id, row)
  {}
}
