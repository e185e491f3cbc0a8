/** Delivery feedback from the Telegram bot (apps/notifications/telegram_delivery.py): ack and
    failure entries of two Redis streams, and the timeout reaper. */
module TelegramFeedback {
  import opened Wrappers
  import opened OutboxTables
  import opened OutboxStore
  import opened OutboxProtocol
  import opened OutboxLease
  import opened OutboxShape

  /** What correlation_id holds; parsing it as an integer fails on malformed text. */
  datatype Correlation = Absent | Malformed | OutboxId(id: Id)

  datatype Feedback =
    | Acked(source: string, correlation: Correlation)
    | Refused(source: string, correlation: Correlation, error: string)
    | TimedOut(id: Id)

  const OUTBOX_SOURCE := "outbox"
  const DEFAULT_ERROR := "telegram delivery failed"

  /** The row an entry is about, if it is about an outbox row at all. */
  function Addressee(f: Feedback): Option<Id> {
    match f
    case TimedOut(id) => Some(id)
    case Acked(source, correlation) => if source == OUTBOX_SOURCE && correlation.OutboxId? then Some(correlation.id)
      else None
    case Refused(source, correlation, _) => if source == OUTBOX_SOURCE && correlation.OutboxId?
      then Some(correlation.id) else None
  }

  function ErrorText(f: Feedback): string {
    if f.Refused? && f.error != "" then f.error else if f.Refused? then DEFAULT_ERROR else ACK_TIMEOUT
  }

  function FeedbackTx(t: Tables, f: Feedback, now: nat): (Tables, FeedbackResult) {
    if Addressee(f).None? then (t, Ignored)
    else if f.Acked? then ConfirmTx(t, Addressee(f).value, now)
    else FailDeliveryTx(t, Addressee(f).value, ErrorText(f), now)
  }

  /** effective: the rows that an entry settled, in order. */
  datatype Consumed = Consumed(tables: Tables, processed: nat, effective: seq<Id>, aborted: bool)

  /** Entries are consumed in order until one names a row that does not exist. */
  function Consume(t: Tables, entries: seq<Feedback>, now: nat): Consumed {
    if entries == [] then Consumed(t, 0, [], false)
    else
      var before := Consume(t, entries[..|entries| - 1], now);
      if before.aborted then before
      else
        var f := entries[|entries| - 1];
        var (tables, result) := FeedbackTx(before.tables, f, now);
        match result
        case Missing => before.(aborted := true)
        case Ignored => before.(processed := before.processed + 1)
        case Effective => Consumed(tables, before.processed + 1, before.effective + [Addressee(f).value], false)
  }

  /** One more entry after a batch that was not aborted. */
  lemma ConsumeSnoc(t: Tables, entries: seq<Feedback>, f: Feedback, now: nat)
    ensures var before := Consume(t, entries, now); var all := Consume(t, entries + [f], now);
      var (tables, result) := FeedbackTx(before.tables, f, now);
      !before.aborted ==>
        && all.aborted == result.Missing?
        && all.tables == (if result.Missing? then before.tables else tables)
        && (!all.aborted ==> all.processed == before.processed + 1)
        && |all.effective| == |before.effective| + (if result.Effective? then 1 else 0)
  {
    assert (entries + [f])[..|entries|] == entries;
  }

  /** A row that does not exist changes nothing. */
  lemma MissingChangesNothing(t: Tables, f: Feedback, now: nat)
    requires FeedbackTx(t, f, now).1.Missing?
    ensures FeedbackTx(t, f, now).0 == t
  {}

  // ---------- the delivery reaper ----------

  predicate AwaitsTooLong(row: Row, cutoff: int) {
    row.channel.Telegram? && row.status.Delivering? && row.lastAttemptAt.Some? && row.lastAttemptAt.value < cutoff
  }

  function StuckDeliveries(rows: map<Id, Row>, cutoff: int): (r: seq<Id>)
    ensures Ascending(r)
    ensures forall id :: id in r <==>
      id in rows && rows[id].channel == Telegram && rows[id].status == Delivering &&
      rows[id].lastAttemptAt.Some? && rows[id].lastAttemptAt.value < cutoff
  {
    Ordered(set id | id in rows && AwaitsTooLong(rows[id], cutoff))
  }

  /** An iteration looks at the status under its lock, but not at the age again. */
  function FailOne(before: Consumed, m: Moment, id: Id): Consumed {
    if before.aborted then before
    else
      var (tables, result) := FailDeliveryTx(m.tables, id, ACK_TIMEOUT, m.now);
      match result
      case Missing => before.(tables := tables, aborted := true)
      case Ignored => before.(tables := tables, processed := before.processed + 1)
      case Effective => Consumed(tables, before.processed + 1, before.effective + [id], false)
  }

  /** The loop over the selected ids: iteration n finds found[n] under its lock. */
  function FailEach(t: Tables, ids: seq<Id>, found: seq<Moment>): Consumed
    requires |ids| <= |found|
  {
    if ids == [] then Consumed(t, 0, [], false)
    else var n := |ids| - 1; FailOne(FailEach(t, ids[..n], found), found[n], ids[n])
  }

  // ---------- the code ----------

  method ConfirmTelegramDelivery(store: NotificationStore, id: Id, now: nat) returns (result: FeedbackResult)
    modifies store`rows
    ensures (store.Db(), result) == ConfirmTx(old(store.Db()), id, now)
    ensures result.Missing? <==> id !in old(store.rows)
    ensures result.Effective? <==> id in old(store.rows) && old(store.rows)[id].status == Delivering
    ensures store.rows == if !result.Effective? then old(store.rows) else old(store.rows)[id :=
      old(store.rows)[id].(status := Status.Sent, sentAt := Some(now), lastError := Some(""), updatedAt := now)]
  {
    if id !in store.rows {
      return FeedbackResult.Missing;
    }
    var outbox := store.rows[id];
    if outbox.status.Sent? {
      return Ignored;
    }
    if !outbox.status.Delivering? {
      return Ignored;
    }
    outbox := outbox.(status := Status.Sent);
    outbox := outbox.(sentAt := Some(now));
    outbox := outbox.(lastError := Some(""), updatedAt := now);
    store.rows := store.rows[id := outbox];
    result := Effective;
  }

  method FailTelegramDelivery(store: NotificationStore, id: Id, error: string, now: nat)
    returns (result: FeedbackResult)
    modifies store`rows
    ensures (store.Db(), result) == FailDeliveryTx(old(store.Db()), id, error, now)
    ensures result.Missing? <==> id !in old(store.rows)
    ensures result.Effective? <==> id in old(store.rows) && old(store.rows)[id].status == Delivering
    ensures store.rows == if !result.Effective? then old(store.rows) else old(store.rows)[id :=
      old(store.rows)[id].(status := Status.Failed, lastError := Some(Truncated(error)), updatedAt := now)]
  {
    if id !in store.rows {
      return FeedbackResult.Missing;
    }
    var outbox := store.rows[id];
    if outbox.status.Sent? || outbox.status.Failed? {
      return Ignored;
    }
    if !outbox.status.Delivering? {
      return Ignored;
    }
    outbox := outbox.(status := Status.Failed);
    outbox := outbox.(lastError := Some(Truncated(error)), updatedAt := now);
    store.rows := store.rows[id := outbox];
    result := Effective;
  }

  /** One entry; false when the handler raises because the row does not exist. */
  method ProcessEntry(store: NotificationStore, f: Feedback, now: nat) returns (ok: bool)
    requires !f.TimedOut?
    modifies store`rows
    ensures ok == !FeedbackTx(old(store.Db()), f, now).1.Missing?
    ensures store.Db() == FeedbackTx(old(store.Db()), f, now).0
    // an entry of another source, without an id or with a malformed one is skipped
    ensures f.source != "outbox" || f.correlation == Absent || f.correlation == Malformed ==>
      ok && store.rows == old(store.rows)
    // an own one settles its row, if that is delivering, with its verdict
    ensures f.source == "outbox" && f.correlation.OutboxId? ==>
      var id := f.correlation.id;
      && ok == (id in old(store.rows))
      && store.rows ==
        if !ok || old(store.rows)[id].status != Delivering then old(store.rows)
        else if f.Acked? then old(store.rows)[id := old(store.rows)[id].(
          status := Status.Sent, sentAt := Some(now), lastError := Some(""), updatedAt := now)]
        else old(store.rows)[id := old(store.rows)[id].(status := Status.Failed, updatedAt := now,
          lastError := Some(Truncated(if f.error == "" then "telegram delivery failed" else f.error)))]
  {
    if f.source != OUTBOX_SOURCE || f.correlation.Absent? {
      return true;
    }
    if f.correlation.Malformed? {
      return true;
    }
    var result;
    if f.Acked? {
      result := ConfirmTelegramDelivery(store, f.correlation.id, now);
    } else {
      result := FailTelegramDelivery(store, f.correlation.id, if f.error != "" then f.error else DEFAULT_ERROR, now);
    }
    ok := !result.Missing?;
  }

  /** The batch loop over one stream; None when it raises. */
  method ProcessEntries(store: NotificationStore, entries: seq<Feedback>, now: nat) returns (processed: Option<nat>)
    requires forall f :: f in entries ==> !f.TimedOut?
    modifies store`rows
    ensures var spec := Consume(old(store.Db()), entries, now);
      store.Db() == spec.tables && processed == if spec.aborted then None else Some(spec.processed)
  {
    var count := 0;
    for i := 0 to |entries|
      invariant var spec := Consume(old(store.Db()), entries[..i], now);
        store.Db() == spec.tables && spec.processed == count && !spec.aborted
    {
      assert entries[..i + 1] == entries[..i] + [entries[i]];
      ConsumeSnoc(old(store.Db()), entries[..i], entries[i], now);
      ghost var before := store.Db();
      var ok := ProcessEntry(store, entries[i], now);
      if !ok {
        MissingChangesNothing(before, entries[i], now);
        AbortEndsBatch(old(store.Db()), entries, i + 1, now);
        return None;
      }
      count := count + 1;
    }
    assert entries[..|entries|] == entries;
    processed := Some(count);
  }

  /** process_telegram_outbound_feedback: the ack stream first, then the failure stream. */
  method ProcessOutboundFeedback(store: NotificationStore, acks: seq<Feedback>, failures: seq<Feedback>, now: nat)
    returns (result: Option<(nat, nat)>)
    requires (forall f :: f in acks ==> f.Acked?) && (forall f :: f in failures ==> f.Refused?)
    modifies store`rows
    ensures store.Db() == Consume(old(store.Db()), acks + failures, now).tables
    ensures result == if Consume(old(store.Db()), acks + failures, now).aborted then None
      else Some((|acks|, |failures|))
  {
    var ackProcessed := ProcessEntries(store, acks, now);
    ConsumeConcat(old(store.Db()), acks, failures, now);
    ConsumeCounts(old(store.Db()), acks, now);
    if ackProcessed.None? {
      return None;
    }
    ConsumeCounts(store.Db(), failures, now);
    var failedProcessed := ProcessEntries(store, failures, now);
    if failedProcessed.None? {
      return None;
    }
    result := Some((ackProcessed.value, failedProcessed.value));
  }

  /** One iteration of the delivery reaper, on the tables that it finds under its lock. */
  method FailFound(store: NotificationStore, m: Moment, id: Id) returns (result: FeedbackResult)
    modifies store`rows, store`logs
    ensures (store.Db(), result) == FailDeliveryTx(m.tables, id, ACK_TIMEOUT, m.now)
  {
    store.rows, store.logs := m.tables.rows, m.tables.logs;
    assert store.Db() == m.tables;
    result := FailTelegramDelivery(store, id, ACK_TIMEOUT, m.now);
  }

  /** The delivery reaper among other sessions: found[n] is what iteration n finds under its lock; None
      when a selected row no longer exists. */
  method ReapStuckDeliveries(store: NotificationStore, cutoff: int, found: seq<Moment>) returns (reaped: Option<nat>)
    requires |StuckDeliveries(store.rows, cutoff)| <= |found|
    modifies store`rows, store`logs
    ensures var spec := FailEach(old(store.Db()), StuckDeliveries(old(store.rows), cutoff), found);
      store.Db() == spec.tables && reaped == if spec.aborted then None else Some(|spec.effective|)
  {
    var ids := StuckDeliveries(store.rows, cutoff);
    var count := 0;
    for i := 0 to |ids|
      invariant var spec := FailEach(old(store.Db()), ids[..i], found);
        store.Db() == spec.tables && |spec.effective| == count && !spec.aborted
    {
      assert ids[..i + 1][..i] == ids[..i];
      var result := FailFound(store, found[i], ids[i]);
      if result.Missing? {
        DeletedEndsReaping(old(store.Db()), ids, i + 1, found);
        return None;
      }
      if result.Effective? {
        count := count + 1;
      }
    }
    assert ids[..|ids|] == ids;
    reaped := Some(count);
  }

  lemma {:induction false} AbortEndsBatch(t: Tables, entries: seq<Feedback>, n: nat, now: nat)
    requires n <= |entries| && Consume(t, entries[..n], now).aborted
    ensures Consume(t, entries, now) == Consume(t, entries[..n], now)
    decreases |entries|
  {
    if n == |entries| {
      assert entries[..n] == entries;
    } else {
      assert entries[..|entries| - 1][..n] == entries[..n];
      AbortEndsBatch(t, entries[..|entries| - 1], n, now);
    }
  }

  lemma {:induction false} ConsumeCounts(t: Tables, entries: seq<Feedback>, now: nat)
    ensures !Consume(t, entries, now).aborted ==> Consume(t, entries, now).processed == |entries|
  {
    if entries != [] { ConsumeCounts(t, entries[..|entries| - 1], now); }
  }

  lemma {:induction false} ConsumeConcat(t: Tables, first: seq<Feedback>, second: seq<Feedback>, now: nat)
    ensures var a := Consume(t, first, now); var all := Consume(t, first + second, now);
      if a.aborted then all == a
      else all.tables == Consume(a.tables, second, now).tables && all.aborted == Consume(a.tables, second, now).aborted
    decreases |second|
  {
    if second == [] {
      assert first + second == first;
    } else {
      var n := |second| - 1;
      assert (first + second)[..|first + second| - 1] == first + second[..n];
      ConsumeConcat(t, first, second[..n], now);
    }
  }

  lemma {:induction false} DeletedEndsReaping(t: Tables, ids: seq<Id>, n: nat, found: seq<Moment>)
    requires n <= |ids| <= |found| && FailEach(t, ids[..n], found).aborted
    ensures FailEach(t, ids, found) == FailEach(t, ids[..n], found)
    decreases |ids|
  {
    if n == |ids| {
      assert ids[..n] == ids;
    } else {
      assert ids[..|ids| - 1][..n] == ids[..n];
      DeletedEndsReaping(t, ids[..|ids| - 1], n, found);
    }
  }

  // ---------- what the delivery reaper does ----------

  /** The iteration finds its row still delivering. */
  ghost predicate FindsDelivering(m: Moment, id: Id) {
    id in m.tables.rows && m.tables.rows[id].status.Delivering?
  }

  ghost function Failing(ids: seq<Id>, found: seq<Moment>): set<nat>
    requires |ids| <= |found|
  {
    set n: nat | n < |ids| && FindsDelivering(found[n], ids[n])
  }

  lemma FailingSnoc(ids: seq<Id>, found: seq<Moment>)
    requires ids != [] && |ids| <= |found|
    ensures var n := |ids| - 1;
      Failing(ids, found) == Failing(ids[..n], found) + (if FindsDelivering(found[n], ids[n]) then {n} else {})
  {}

  /** What an iteration leaves: its row failed if it was still delivering, nothing else changed. */
  ghost predicate LeavesFailed(after: Tables, m: Moment, id: Id) {
    if FindsDelivering(m, id)
    then after == m.tables.(rows := m.tables.rows[id := FailedRow(m.tables.rows[id], ACK_TIMEOUT, m.now)])
    else after == m.tables
  }

  /** Whatever other sessions do before any of the locks are taken: the loop stops early exactly at a
      deleted row; otherwise exactly the iterations that find their row still delivering are counted. */
  lemma {:induction false} FailEachActs(t: Tables, ids: seq<Id>, found: seq<Moment>)
    requires |ids| <= |found|
    ensures var r := FailEach(t, ids, found);
      && (r.aborted <==> MeetsDeleted(ids, found))
      && (!r.aborted ==>
        |r.effective| == |Failing(ids, found)| && forall n :: n in Failing(ids, found) ==> ids[n] in r.effective)
  {
    if ids != [] {
      var n := |ids| - 1;
      FailEachActs(t, ids[..n], found);
      MeetsDeletedSnoc(ids, found);
      FailingSnoc(ids, found);
      FailOneCounts(FailEach(t, ids[..n], found), found[n], ids[n]);
    }
  }

  lemma FailOneCounts(before: Consumed, m: Moment, id: Id)
    ensures var r := FailOne(before, m, id);
      && (r.aborted <==> before.aborted || id !in m.tables.rows)
      && (!before.aborted ==> r.effective == before.effective + (if FindsDelivering(m, id) then [id] else []))
  {
    assert before.effective + [] == before.effective;
  }

  /** Each iteration of such a loop fails its row if it still finds it delivering, and changes nothing else. */
  lemma IterationLeavesFailed(t: Tables, ids: seq<Id>, found: seq<Moment>, n: nat)
    requires n < |ids| <= |found| && !FailEach(t, ids, found).aborted
    ensures LeavesFailed(FailEach(t, ids[..n + 1], found).tables, found[n], ids[n])
  {
    if FailEach(t, ids[..n + 1], found).aborted {
      DeletedEndsReaping(t, ids, n + 1, found);
    }
    assert ids[..n + 1][..n] == ids[..n];
  }

  function TimeOuts(ids: seq<Id>): seq<Feedback> {
    seq(|ids|, i requires 0 <= i < |ids| => TimedOut(ids[i]))
  }

  lemma OneTimeOut(t: Tables, ids: seq<Id>, id: Id, now: nat)
    ensures var before := Consume(t, TimeOuts(ids), now);
      Consume(t, TimeOuts(ids + [id]), now) == FailOne(before, Moment(before.tables, now), id)
  {
    assert TimeOuts(ids + [id])[..|ids|] == TimeOuts(ids);
    assert TimeOuts(ids + [id])[|ids|] == TimedOut(id);
  }

  /** Each iteration finds what the one before has left. */
  ghost predicate UndisturbedTimeOuts(t: Tables, ids: seq<Id>, found: seq<Moment>, now: nat) {
    |ids| <= |found| && forall n: nat :: n < |ids| ==>
      found[n] == Moment(Consume(t, TimeOuts(ids[..n]), now).tables, now)
  }

  /** When nobody interferes the loop consumes one timeout per selected row. */
  lemma {:induction false} UndisturbedReaping(t: Tables, ids: seq<Id>, found: seq<Moment>, now: nat)
    requires UndisturbedTimeOuts(t, ids, found, now)
    ensures FailEach(t, ids, found) == Consume(t, TimeOuts(ids), now)
  {
    if ids != [] {
      var n := |ids| - 1;
      forall m: nat | m < n ensures ids[..n][..m] == ids[..m] {}
      UndisturbedReaping(t, ids[..n], found, now);
      OneTimeOut(t, ids[..n], ids[n], now);
      assert ids[..n] + [ids[n]] == ids;
    }
  }

  /** Such a pass is never cut short; it fails exactly the Telegram rows that have been delivering since
      before the cutoff, counts them, and changes no other row. */
  lemma TimedOutRowsFail(t: Tables, cutoff: int, now: nat)
    ensures var r := Consume(t, TimeOuts(StuckDeliveries(t.rows, cutoff)), now);
      && !r.aborted && r.effective == StuckDeliveries(t.rows, cutoff)
      && r.tables.logs == t.logs && r.tables.rows.Keys == t.rows.Keys
      && (forall id :: id in t.rows ==>
        r.tables.rows[id] ==
          if t.rows[id].channel == Telegram && t.rows[id].status == Delivering &&
            t.rows[id].lastAttemptAt.Some? && t.rows[id].lastAttemptAt.value < cutoff
          then t.rows[id].(status := Status.Failed, lastError := Some("telegram delivery ack timeout"),
                           updatedAt := now)
          else t.rows[id])
  {
    TimeOutsFail(t, StuckDeliveries(t.rows, cutoff), now);
  }

  lemma {:induction false} TimeOutsFail(t: Tables, ids: seq<Id>, now: nat)
    requires Ascending(ids) && forall id :: id in ids ==> id in t.rows && t.rows[id].status.Delivering?
    ensures var r := Consume(t, TimeOuts(ids), now);
      && !r.aborted && r.effective == ids
      && r.tables.logs == t.logs && r.tables.rows.Keys == t.rows.Keys
      && (forall id :: id in t.rows ==>
        r.tables.rows[id] == if id in ids then FailedRow(t.rows[id], ACK_TIMEOUT, now) else t.rows[id])
  {
    if ids != [] {
      var n := |ids| - 1;
      TimeOutsFail(t, ids[..n], now);
      OneTimeOut(t, ids[..n], ids[n], now);
      assert ids[n] !in ids[..n] && ids[n] in ids;
      assert forall id :: id in ids <==> id in ids[..n] || id == ids[n];
      assert ids[..n] + [ids[n]] == ids;
    }
  }

  // ---------- a delivery episode is ended exactly once ----------

  /** The first entry about the row. */
  function FirstVerdict(entries: seq<Feedback>, id: Id): (r: Option<nat>)
    ensures r.None? <==> forall i :: 0 <= i < |entries| ==> Addressee(entries[i]) != Some(id)
    ensures r.Some? ==> r.value < |entries| && Addressee(entries[r.value]) == Some(id)
    ensures r.Some? ==> forall i :: 0 <= i < r.value ==> Addressee(entries[i]) != Some(id)
  {
    if entries == [] then None
    else
      var before := FirstVerdict(entries[..|entries| - 1], id);
      if before.Some? then before else if Addressee(entries[|entries| - 1]) == Some(id) then Some(|entries| - 1)
        else None
  }

  /** The entry comes from the outbox with the row's id, or is the row's timeout. */
  predicate OwnEntry(f: Feedback, id: Id) {
    match f
    case Acked(source, correlation) => source == "outbox" && correlation == OutboxId(id)
    case Refused(source, correlation, _) => source == "outbox" && correlation == OutboxId(id)
    case TimedOut(about) => about == id
  }

  lemma AddresseeIsOwn(f: Feedback, id: Id)
    ensures Addressee(f) == Some(id) <==> OwnEntry(f, id)
  {}

  /** What a verdict makes of its row. */
  function VerdictRow(row: Row, f: Feedback, now: nat): Row {
    match f
    case Acked(_, _) =>
      row.(status := Status.Sent, sentAt := Some(now), lastError := Some(""), updatedAt := now)
    case Refused(_, _, error) =>
      row.(status := Status.Failed, updatedAt := now,
           lastError := Some(Truncated(if error == "" then "telegram delivery failed" else error)))
    case TimedOut(_) =>
      row.(status := Status.Failed, lastError := Some("telegram delivery ack timeout"), updatedAt := now)
  }

  /** However entries are duplicated, reordered or mixed with foreign and malformed ones, a
      delivering row ends as its first verdict says and is settled exactly once; a row that is not
      delivering is not touched. */
  lemma FirstVerdictDecides(t: Tables, entries: seq<Feedback>, now: nat, id: Id, first: Option<nat>)
    requires id in t.rows && !Consume(t, entries, now).aborted
    requires first.Some? ==> first.value < |entries|
    requires forall i :: 0 <= i < |entries| && (first.None? || i < first.value) ==> !OwnEntry(entries[i], id)
    requires first.Some? ==> OwnEntry(entries[first.value], id)
    ensures var after := Consume(t, entries, now);
      && id in after.tables.rows
      && (if t.rows[id].status == Delivering && first.Some?
          then after.tables.rows[id] == VerdictRow(t.rows[id], entries[first.value], now) &&
            multiset(after.effective)[id] == 1
          else after.tables.rows[id] == t.rows[id] && multiset(after.effective)[id] == 0)
  {
    forall f: Feedback ensures Addressee(f) == Some(id) <==> OwnEntry(f, id) {
      AddresseeIsOwn(f, id);
    }
    assert FirstVerdict(entries, id) == first;
    FirstAddresseeDecides(t, entries, now, id);
  }

  lemma {:induction false} FirstAddresseeDecides(t: Tables, entries: seq<Feedback>, now: nat, id: Id)
    requires id in t.rows && !Consume(t, entries, now).aborted
    ensures var after := Consume(t, entries, now); var first := FirstVerdict(entries, id);
      && id in after.tables.rows
      && (if t.rows[id].status.Delivering? && first.Some?
          then after.tables.rows[id] == VerdictRow(t.rows[id], entries[first.value], now) &&
            multiset(after.effective)[id] == 1
          else after.tables.rows[id] == t.rows[id] && multiset(after.effective)[id] == 0)
  {
    if entries != [] {
      FirstAddresseeDecides(t, entries[..|entries| - 1], now, id);
    }
  }

  // ---------- over whole runs of the protocol ----------

  ghost predicate AwaitsVerdict(s: System, id: Id) {
    id in s.db.rows && s.db.rows[id].status.Delivering?
  }

  /** The step is a DELIVERING write on the row that the database accepts. */
  ghost predicate Dispatch(s: System, step: Step, id: Id) {
    && step.WriteDelivering? && step.w in s.workers
    && s.workers[step.w].phase.Published? && s.workers[step.w].id == id
    && DeliverTx(s.db, id, s.clock).1.Written?
  }

  /** The step is a confirmation, refusal or timeout that takes effect on the row. */
  ghost predicate Verdict(cfg: Config, s: System, step: Step, id: Id) {
    && (step.Ack? || step.Refuse? || step.ReapDelivering?) && step.id == id
    && AwaitsVerdict(s, id) && Apply(cfg, s, step).db != s.db
  }

  /** Cleanup deletes the row while it awaits its verdict. */
  ghost predicate Loss(s: System, step: Step, id: Id) {
    step.DeleteOld? && step.id == id && id in s.selected && AwaitsVerdict(s, id)
  }

  ghost function Dispatches(cfg: Config, run: seq<Step>, id: Id): nat {
    if run == [] then 0
    else
      var latest := if Dispatch(Exec(cfg, run[..|run| - 1]), run[|run| - 1], id) then 1 else 0;
      Dispatches(cfg, run[..|run| - 1], id) + latest
  }

  ghost function Verdicts(cfg: Config, run: seq<Step>, id: Id): nat {
    if run == [] then 0
    else
      var latest := if Verdict(cfg, Exec(cfg, run[..|run| - 1]), run[|run| - 1], id) then 1 else 0;
      Verdicts(cfg, run[..|run| - 1], id) + latest
  }

  ghost function Losses(cfg: Config, run: seq<Step>, id: Id): nat {
    if run == [] then 0
    else
      var latest := if Loss(Exec(cfg, run[..|run| - 1]), run[|run| - 1], id) then 1 else 0;
      Losses(cfg, run[..|run| - 1], id) + latest
  }

  ghost function Awaited(s: System, id: Id): nat {
    if AwaitsVerdict(s, id) then 1 else 0
  }

  /** Each dispatch of the row to the bot has been settled by exactly one effective verdict, except the
      one that is still awaited. */
  ghost predicate Settled(cfg: Config, run: seq<Step>, id: Id) {
    Dispatches(cfg, run, id) == Verdicts(cfg, run, id) + Awaited(Exec(cfg, run), id)
  }

  /** The same, counting deletions of an awaited row. */
  ghost predicate SettledOrLost(cfg: Config, run: seq<Step>, id: Id) {
    Dispatches(cfg, run, id) == Verdicts(cfg, run, id) + Losses(cfg, run, id) + Awaited(Exec(cfg, run), id)
  }

  /** Under the lease dispatches are settled or lost, and lost only if selected rows can be begun again. */
  lemma {:induction false} EveryDispatchSettledOnce(cfg: Config, run: seq<Step>, id: Id)
    requires cfg.taskLimit <= cfg.timeout
    ensures SettledOrLost(cfg, run, id)
    ensures !cfg.beginSelected ==> Losses(cfg, run, id) == 0
  {
    if run != [] {
      var before := run[..|run| - 1];
      EveryDispatchSettledOnce(cfg, before, id);
      ReachableLease(cfg, before);
      AlwaysOneInFlight(cfg, before);
      DispatchOrVerdict(cfg, Exec(cfg, before), run[|run| - 1], id);
    }
  }

  /** In every run every dispatch is settled exactly once, if and only if a task cannot outlive the
      processing timeout and no row is begun between its selection by cleanup and its deletion. */
  lemma SettledIff(cfg: Config)
    ensures (forall run, id :: Settled(cfg, run, id)) <==> cfg.taskLimit <= cfg.timeout && !cfg.beginSelected
  {
    if cfg.taskLimit > cfg.timeout {
      var run := DispatchedUnderTask(cfg);
      SilentEnd(cfg, run, WriteFailed(1, ""), 0);
    } else if cfg.beginSelected {
      var run := DispatchedWhileSelected(cfg);
      SilentEnd(cfg, run, DeleteOld(0), 0);
    } else {
      forall run, id ensures Settled(cfg, run, id) {
        EveryDispatchSettledOnce(cfg, run, id);
      }
    }
  }

  /** With the deletions counted, only the timeout matters. */
  lemma SettledOrLostIff(cfg: Config)
    ensures (forall run, id :: SettledOrLost(cfg, run, id)) <==> cfg.taskLimit <= cfg.timeout
  {
    if cfg.taskLimit <= cfg.timeout {
      forall run, id ensures SettledOrLost(cfg, run, id) {
        EveryDispatchSettledOnce(cfg, run, id);
      }
    } else {
      var run := DispatchedUnderTask(cfg);
      SilentEnd(cfg, run, WriteFailed(1, ""), 0);
    }
  }

  /** A step that ends the wait without a verdict upsets the account. */
  lemma SilentEnd(cfg: Config, run: seq<Step>, step: Step, id: Id)
    requires var s := Exec(cfg, run); AwaitsVerdict(s, id) && !AwaitsVerdict(Apply(cfg, s, step), id)
    requires !step.WriteDelivering? && !Verdict(cfg, Exec(cfg, run), step, id)
    ensures !(Settled(cfg, run, id) && Settled(cfg, run + [step], id))
    ensures Loss(Exec(cfg, run), step, id) || !(SettledOrLost(cfg, run, id) && SettledOrLost(cfg, run + [step], id))
  {
    assert (run + [step])[..|run|] == run;
  }

  /** Of two overlapping attempts one has dispatched the row, and the other is about to fail it. */
  lemma DispatchedUnderTask(cfg: Config) returns (run: seq<Step>)
    requires cfg.taskLimit > cfg.timeout
    ensures var s := Exec(cfg, run); AwaitsVerdict(s, 0) && !AwaitsVerdict(Apply(cfg, s, WriteFailed(1, "")), 0)
  {
    var overlap := OverlapIsReachable(cfg, Telegram, None);
    run := overlap + [Publish(0)] + [WriteDelivering(0)] + [Raise(1)];
    ExecSnoc(cfg, overlap, Publish(0));
    ExecSnoc(cfg, overlap + [Publish(0)], WriteDelivering(0));
    ExecSnoc(cfg, overlap + [Publish(0)] + [WriteDelivering(0)], Raise(1));
    FirstDispatches(cfg);
    FailedWhileAwaited(cfg, Exec(cfg, run));
  }

  lemma FirstDispatches(cfg: Config)
    ensures var o := OverlapState(cfg, Telegram, None);
      Apply(cfg, Apply(cfg, Apply(cfg, o, Publish(0)), WriteDelivering(0)), Raise(1)) ==
      o.(db := Tables(map[0 := DeliveringRow(o.db.rows[0], o.clock)], []),
         workers := map[1 := o.workers[1].(phase := Raising)])
  {
    var o := OverlapState(cfg, Telegram, None);
    var published := o.(workers := o.workers[0 := o.workers[0].(phase := Published)]);
    assert Apply(cfg, o, Publish(0)) == ApplyWorker(cfg, o, Publish(0)) == published;
    assert published.workers - {0} == map[1 := o.workers[1]];
    assert published.db.rows[0 := DeliveringRow(o.db.rows[0], o.clock)] ==
      map[0 := DeliveringRow(o.db.rows[0], o.clock)];
    var dispatched := o.(db := Tables(map[0 := DeliveringRow(o.db.rows[0], o.clock)], []),
                         workers := map[1 := o.workers[1]]);
    assert Apply(cfg, published, WriteDelivering(0)) == ApplyFinal(published, WriteDelivering(0)) == dispatched;
    assert Apply(cfg, dispatched, Raise(1)) == ApplyWorker(cfg, dispatched, Raise(1));
  }

  lemma FailedWhileAwaited(cfg: Config, s: System)
    requires AwaitsVerdict(s, 0) && 1 in s.workers && s.workers[1].phase.Raising? && s.workers[1].id == 0
    ensures !AwaitsVerdict(Apply(cfg, s, WriteFailed(1, "")), 0)
  {
    assert Apply(cfg, s, WriteFailed(1, "")) == ApplyFinal(s, WriteFailed(1, ""));
    assert !Conflicts(s.db.rows, 0, FailedRow(s.db.rows[0], Truncated(""), s.clock));
  }

  /** A row that was begun after its selection by cleanup is dispatched, and then deleted. */
  lemma DispatchedWhileSelected(cfg: Config) returns (run: seq<Step>)
    requires cfg.beginSelected
    ensures var s := Exec(cfg, run); AwaitsVerdict(s, 0) && !AwaitsVerdict(Apply(cfg, s, DeleteOld(0)), 0)
  {
    var begun := BeginAfterSelection(cfg, Telegram);
    run := begun + [Publish(1)] + [WriteDelivering(1)];
    ExecSnoc(cfg, begun, Publish(1));
    ExecSnoc(cfg, begun + [Publish(1)], WriteDelivering(1));
    SelectedIsDispatched(cfg);
  }

  lemma SelectedIsDispatched(cfg: Config)
    ensures var s := Apply(cfg, Apply(cfg, BegunSelected(Telegram), Publish(1)), WriteDelivering(1));
      AwaitsVerdict(s, 0) && !AwaitsVerdict(Apply(cfg, s, DeleteOld(0)), 0)
  {
    var s := BegunSelected(Telegram);
    var published := s.(workers := map[1 := s.workers[1].(phase := Published)]);
    assert Apply(cfg, s, Publish(1)) == ApplyWorker(cfg, s, Publish(1)) == published;
    var dispatched := Apply(cfg, published, WriteDelivering(1));
    assert dispatched == ApplyFinal(published, WriteDelivering(1));
    assert 0 in dispatched.selected && AwaitsVerdict(dispatched, 0);
    assert Apply(cfg, dispatched, DeleteOld(0)) == ApplyRow(cfg, dispatched, DeleteOld(0));
  }

  /** A row starts to await a verdict by a dispatch and stops by a verdict or a loss, and in no other way. */
  ghost predicate EpisodeStep(cfg: Config, s: System, step: Step, id: Id) {
    && (Dispatch(s, step, id) <==> !AwaitsVerdict(s, id) && AwaitsVerdict(Apply(cfg, s, step), id))
    && (Verdict(cfg, s, step, id) || Loss(s, step, id) <==>
      AwaitsVerdict(s, id) && !AwaitsVerdict(Apply(cfg, s, step), id))
    && !(Verdict(cfg, s, step, id) && Loss(s, step, id))
    && (Loss(s, step, id) ==> cfg.beginSelected)
  }

  lemma DispatchOrVerdict(cfg: Config, s: System, step: Step, id: Id)
    requires cfg.taskLimit <= cfg.timeout && Lease(cfg, s) && OneInFlightPerTarget(s.db.rows)
    ensures EpisodeStep(cfg, s, step, id)
  {
    if IsFinalWrite(step) {
      FinalStepIsEpisodeStep(cfg, s, step, id);
    } else if OnRow(step) {
      RowStepIsEpisodeStep(cfg, s, step, id);
    } else {
      OtherStepIsEpisodeStep(cfg, s, step, id);
    }
  }

  lemma OtherStepIsEpisodeStep(cfg: Config, s: System, step: Step, id: Id)
    requires Lease(cfg, s) && !IsFinalWrite(step) && !OnRow(step)
    ensures EpisodeStep(cfg, s, step, id)
  {
    if OfTask(step) {
      TaskFrame(cfg, s, step);
    } else {
      StepIsLegal(cfg, s, step, id);
      BeginLeavesDelivering(cfg, s, step, id);
    }
  }

  lemma BeginLeavesDelivering(cfg: Config, s: System, step: Step, id: Id)
    requires LegalChange(cfg, s, Apply(cfg, s, step), id) && (step.Tick? || step.Create? || step.Begin?)
    ensures AwaitsVerdict(s, id) <==> AwaitsVerdict(Apply(cfg, s, step), id)
  {}

  lemma FinalStepIsEpisodeStep(cfg: Config, s: System, step: Step, id: Id)
    requires cfg.taskLimit <= cfg.timeout && Lease(cfg, s) && OneInFlightPerTarget(s.db.rows)
    requires IsFinalWrite(step)
    ensures EpisodeStep(cfg, s, step, id)
  {
    var t := ApplyFinal(s, step);
    assert Apply(cfg, s, step) == t;
    if t != s && s.workers[step.w].id in s.db.rows {
      var own := s.workers[step.w].id;
      FinalStepWrites(cfg, s, step);
      assert WorkerOk(cfg, s, s.workers[step.w]);
      assert AwaitsVerdict(t, own) <==> step.WriteDelivering?;
      assert id != own ==> AwaitsVerdict(t, id) == AwaitsVerdict(s, id);
    } else {
      assert t.db == s.db;
    }
  }

  lemma RowStepIsEpisodeStep(cfg: Config, s: System, step: Step, id: Id)
    requires Lease(cfg, s) && OnRow(step)
    ensures EpisodeStep(cfg, s, step, id)
  {
    var t := ApplyRow(cfg, s, step);
    assert Apply(cfg, s, step) == t;
    if id != step.id {
      assert AwaitsVerdict(t, id) == AwaitsVerdict(s, id);
    } else {
      assert id in s.selected ==> SelectedRowOk(cfg, s, id);
    }
  }

  /** In every run of every configuration a Telegram row is sent only if an ack for its id was consumed
      while it was delivering. */
  lemma {:induction false} TelegramSentNeedsAck(cfg: Config, run: seq<Step>, id: Id) returns (i: nat)
    requires var s := Exec(cfg, run); id in s.db.rows && s.db.rows[id].channel.Telegram? && s.db.rows[id].status.Sent?
    ensures i < |run| && run[i] == Ack(id) && AwaitsVerdict(Exec(cfg, run[..i]), id)
  {
    var before := run[..|run| - 1];
    var step := run[|run| - 1];
    var s := Exec(cfg, before);
    ReachableShape(cfg, before);
    StepKeepsChannel(cfg, s, step, id);
    if id in s.db.rows && s.db.rows[id].status.Sent? {
      i := TelegramSentNeedsAck(cfg, before, id);
      assert run[..i] == before[..i];
    } else {
      i := |run| - 1;
      OnlyAckSendsTelegram(cfg, s, step, id);
    }
  }

  lemma OnlyAckSendsTelegram(cfg: Config, s: System, step: Step, id: Id)
    requires Shape(s)
    requires id in s.db.rows && s.db.rows[id].channel.Telegram? && !s.db.rows[id].status.Sent?
    requires var t := Apply(cfg, s, step); id in t.db.rows && t.db.rows[id].status.Sent?
    ensures step == Ack(id) && AwaitsVerdict(s, id)
  {
    NoTelegramLog(s, id);
    if OnRow(step) {
      RowSendsTelegram(cfg, s, step, id);
    } else if IsFinalWrite(step) {
      FinalSendsNoTelegram(cfg, s, step, id);
    } else if OfTask(step) {
      TaskFrame(cfg, s, step);
    }
  }

  /** Only email rows have logs. */
  lemma NoTelegramLog(s: System, id: Id)
    requires LogsOk(s) && id in s.db.rows && s.db.rows[id].channel.Telegram?
    ensures LatestSentLog(s.db.logs, id).None?
  {
    assert forall l :: 0 <= l < |s.db.logs| ==> !SentLogOf(s.db.logs[l], id);
  }

  lemma RowSendsTelegram(cfg: Config, s: System, step: Step, id: Id)
    requires id in s.db.rows && !s.db.rows[id].status.Sent? && LatestSentLog(s.db.logs, id).None? && OnRow(step)
    requires var t := Apply(cfg, s, step); id in t.db.rows && t.db.rows[id].status.Sent?
    ensures step == Ack(id) && AwaitsVerdict(s, id)
  {
    assert Apply(cfg, s, step) == ApplyRow(cfg, s, step);
  }

  /** The SENT write of a task is for email rows. */
  lemma FinalSendsNoTelegram(cfg: Config, s: System, step: Step, id: Id)
    requires Shape(s) && IsFinalWrite(step) && id in s.db.rows && s.db.rows[id].channel.Telegram? &&
      !s.db.rows[id].status.Sent?
    ensures var t := Apply(cfg, s, step); id in t.db.rows && !t.db.rows[id].status.Sent?
  {
    var t := ApplyFinal(s, step);
    assert Apply(cfg, s, step) == t;
    FinalFrame(s, step);
    if t != s {
      assert WorkerShape(s, s.workers[step.w]);
    }
  }
}
