/** The delivery protocol as a transition system: any number of task workers, crashes, both
    reapers, the Telegram feedback consumer and cleanup, interleaved in any order over the
    transactions of OutboxTables. A step that is not enabled leaves the state unchanged, so
    every sequence of steps is a run. */
module OutboxProtocol {
  import opened Wrappers
  import opened OutboxTables

  /** timeout: age after which a processing row counts as stale; taskLimit: hard time limit of a
      task, counted from the start of its attempt; lateRaise: an exception can still reach the
      failure handler once the email log says sent (the handler's own bookkeeping after the
      send, or the soft time limit); beginSelected: a FAILED row that cleanup has selected can still
      be begun again before it is deleted. */
  datatype Config = Config(timeout: nat, taskLimit: nat, maxAttempts: nat, lateRaise: bool, beginSelected: bool)

  datatype Phase = Started | Logged(log: nat) | Accepted(log: nat) | Recorded(log: nat) | Published | Raising

  /** A live task between the begin transaction and its final write. */
  datatype Worker = Worker(id: Id, channel: Channel, startedAt: nat, phase: Phase)

  /** acked: outbox ids for which the feedback consumer has processed an ack; selected: outbox ids
      that cleanup has read as old and is about to delete. */
  datatype System = System(clock: nat, db: Tables, workers: map<nat, Worker>, nextId: Id, acked: set<Id>,
                           selected: set<Id>)

  datatype Step =
    | Tick(d: nat)
    | Create(channel: Channel, kind: string, target: Option<Target>)
    | Begin(w: nat, id: Id, checkedAt: nat)
    | CreateLog(w: nat, recipient: string)
    | Suppress(w: nat, recipient: string)
    | SmtpAccept(w: nat)
    | SmtpRefuse(w: nat)
    | RecordSent(w: nat)
    | Publish(w: nat)
    | Raise(w: nat)
    | Crash(w: nat)
    | WriteFailed(w: nat, error: string)
    | WriteDelivering(w: nat)
    | WriteSent(w: nat)
    | Ack(id: Id)
    | Refuse(id: Id, error: string)
    | ReapDelivering(id: Id)
    | ReapProcessing(id: Id, cutoff: int)
    | SelectOld(id: Id, sentCutoff: int, failedCutoff: int)
    | DeleteOld(id: Id)

  const ACK_TIMEOUT := "telegram delivery ack timeout"

  const INITIAL := System(0, Tables(map[], []), map[], 0, {}, {})

  /** The hard time limit: no live task lets the clock pass its deadline. */
  predicate MayTick(cfg: Config, s: System, d: nat) {
    forall w :: w in s.workers ==> s.clock + d <= s.workers[w].startedAt + cfg.taskLimit
  }

  predicate In(s: System, w: nat, phase: Phase) {
    w in s.workers && s.workers[w].phase == phase
  }

  function Moved(s: System, w: nat, phase: Phase): System
    requires w in s.workers
  {
    s.(workers := s.workers[w := s.workers[w].(phase := phase)])
  }

  function Gone(s: System, w: nat): System {
    s.(workers := s.workers - {w})
  }

  /** Append a log for the worker's row. */
  function Logging(s: System, w: nat, recipient: string, status: LogStatus): System
    requires w in s.workers
  {
    s.(db := s.db.(logs := s.db.logs + [EmailLog(Some(s.workers[w].id), recipient, status, None)]))
  }

  function LogUpdated(s: System, log: nat, status: LogStatus, sentAt: Option<nat>): System
    requires log < |s.db.logs|
  {
    s.(db := s.db.(logs := s.db.logs[log := s.db.logs[log].(status := status, sentAt := sentAt)]))
  }

  /** Steps of a task between its begin and its final write. */
  predicate OfTask(step: Step) {
    || step.CreateLog? || step.Suppress? || step.SmtpAccept? || step.SmtpRefuse? || step.RecordSent?
    || step.Publish? || step.Raise? || step.Crash?
  }

  function ApplyWorker(cfg: Config, s: System, step: Step): System
    requires OfTask(step)
  {
    if step.w !in s.workers then s
    else
      var k := s.workers[step.w];
      match step
      case CreateLog(w, recipient) =>
        if !k.phase.Started? || !k.channel.Email? then s
        else if k.id !in s.db.rows then Moved(s, w, Raising) // the foreign key refuses the log
        else Moved(Logging(s, w, recipient, Queued), w, Logged(|s.db.logs|))
      case Suppress(w, recipient) =>
        if !k.phase.Started? || !k.channel.Email? then s
        else if k.id !in s.db.rows then Moved(s, w, Raising)
        else Moved(Logging(s, w, recipient, Suppressed), w, Raising)
      case SmtpAccept(w) =>
        if k.phase.Logged? then Moved(s, w, Accepted(k.phase.log)) else s
      case SmtpRefuse(w) =>
        if k.phase.Logged? && k.phase.log < |s.db.logs|
        then Moved(LogUpdated(s, k.phase.log, LogStatus.Failed, None), w, Raising) else s
      case RecordSent(w) =>
        if k.phase.Accepted? && k.phase.log < |s.db.logs|
        then Moved(LogUpdated(s, k.phase.log, LogStatus.Sent, Some(s.clock)), w, Recorded(k.phase.log)) else s
      case Publish(w) =>
        if k.phase.Started? && k.channel.Telegram? then Moved(s, w, Published) else s
      case Raise(w) =>
        if k.phase.Recorded? && !cfg.lateRaise then s else Moved(s, w, Raising)
      case Crash(w) => Gone(s, w)
  }

  predicate IsFinalWrite(step: Step) {
    step.WriteFailed? || step.WriteDelivering? || step.WriteSent?
  }

  function ApplyFinal(s: System, step: Step): System
    requires IsFinalWrite(step)
  {
    if step.w !in s.workers then s
    else
      var k := s.workers[step.w];
      match step
      case WriteFailed(w, error) =>
        if k.phase.Raising? then Gone(s, w).(db := FailTx(s.db, k.id, error, s.clock).0) else s
      case WriteDelivering(w) =>
        if k.phase.Published? then Gone(s, w).(db := DeliverTx(s.db, k.id, s.clock).0) else s
      case WriteSent(w) =>
        // a handler may also return without sending (no recipient, nothing to pay)
        if k.phase.Recorded? || (k.phase.Started? && k.channel.Email?)
        then Gone(s, w).(db := SendTx(s.db, k.id, s.clock).0) else s
  }

  /** Steps of the feedback consumer, the reapers and cleanup. */
  predicate OnRow(step: Step) {
    || step.Ack? || step.Refuse? || step.ReapDelivering? || step.ReapProcessing?
    || step.SelectOld? || step.DeleteOld?
  }

  function ApplyRow(cfg: Config, s: System, step: Step): System
    requires OnRow(step)
  {
    match step
    case Ack(id) =>
      var (db, result) := ConfirmTx(s.db, id, s.clock);
      s.(db := db, acked := if result.Missing? then s.acked else s.acked + {id})
    case Refuse(id, error) => s.(db := FailDeliveryTx(s.db, id, error, s.clock).0)
    case ReapDelivering(id) =>
      // the age of the attempt is only checked by the query, not again under the lock
      s.(db := FailDeliveryTx(s.db, id, ACK_TIMEOUT, s.clock).0)
    case ReapProcessing(id, cutoff) =>
      // the cutoff was computed when the pass started
      if cutoff <= s.clock - cfg.timeout then s.(db := ReapTx(s.db, id, cutoff, cfg.maxAttempts, s.clock).0) else s
    case SelectOld(id, sentCutoff, failedCutoff) =>
      if id in s.db.rows && Expired(s.db.rows[id], sentCutoff, failedCutoff) then s.(selected := s.selected + {id})
        else s
    case DeleteOld(id) =>
      // the delete goes by id and does not look at the status again
      if id in s.selected then s.(db := DeleteTx(s.db, id), selected := s.selected - {id}) else s
  }

  /** The task may try to begin an attempt: only the exclusion of selected rows is an assumption. */
  predicate MayBegin(cfg: Config, s: System, w: nat, id: Id, checkedAt: nat) {
    w !in s.workers && checkedAt <= s.clock && (cfg.beginSelected || id !in s.selected)
  }

  function Apply(cfg: Config, s: System, step: Step): System {
    if OfTask(step) then ApplyWorker(cfg, s, step)
    else if IsFinalWrite(step) then ApplyFinal(s, step)
    else if OnRow(step) then ApplyRow(cfg, s, step)
    else
      match step
      case Tick(d) => if MayTick(cfg, s, d) then s.(clock := s.clock + d) else s
      case Create(channel, kind, target) =>
        var row := NewRow(channel, kind, target, s.clock);
        if Conflicts(s.db.rows, s.nextId, row) then s
        else s.(db := s.db.(rows := s.db.rows[s.nextId := row]), nextId := s.nextId + 1)
      case Begin(w, id, checkedAt) =>
        if !MayBegin(cfg, s, w, id, checkedAt) then s
        else
          var (db, result) := BeginTx(s.db, id, cfg.timeout, checkedAt, s.clock);
          if result.Begun?
          then s.(db := db, workers := s.workers[w := Worker(id, result.outbox.channel, s.clock, Started)])
          else s.(db := db)
      case _ => s
  }

  // ---------- what the steps do ----------

  lemma TickRuns(cfg: Config, s: System, d: nat)
    requires MayTick(cfg, s, d)
    ensures Apply(cfg, s, Tick(d)) == s.(clock := s.clock + d)
  {}

  lemma BeginRuns(cfg: Config, s: System, w: nat, id: Id, checkedAt: nat)
    requires MayBegin(cfg, s, w, id, checkedAt)
    ensures var (db, result) := BeginTx(s.db, id, cfg.timeout, checkedAt, s.clock);
      Apply(cfg, s, Begin(w, id, checkedAt)) ==
      if result.Begun? then s.(db := db, workers := s.workers[w := Worker(id, result.outbox.channel, s.clock, Started)])
      else s.(db := db)
  {}

  // ---------- what the kinds of steps leave alone ----------

  lemma TaskFrame(cfg: Config, s: System, step: Step)
    requires OfTask(step)
    ensures var t := ApplyWorker(cfg, s, step);
      t.db.rows == s.db.rows && t.nextId == s.nextId && t.clock == s.clock && t.workers.Keys <= s.workers.Keys
    ensures var t := ApplyWorker(cfg, s, step); forall w :: w in t.workers ==> t.workers[w].id == s.workers[w].id
  {}

  lemma FinalFrame(s: System, step: Step)
    requires IsFinalWrite(step)
    ensures var t := ApplyFinal(s, step);
      t.db.rows.Keys == s.db.rows.Keys && t.nextId == s.nextId && t.clock == s.clock && t.workers.Keys <= s.workers.Keys
    ensures var t := ApplyFinal(s, step); forall w :: w in t.workers ==> t.workers[w] == s.workers[w]
    ensures var t := ApplyFinal(s, step); forall id :: id in t.db.rows ==>
      t.db.rows[id].attempts == s.db.rows[id].attempts && t.db.rows[id].channel == s.db.rows[id].channel
  {}

  lemma RowFrame(cfg: Config, s: System, step: Step)
    requires OnRow(step)
    ensures var t := ApplyRow(cfg, s, step);
      t.db.rows.Keys <= s.db.rows.Keys && t.nextId == s.nextId && t.clock == s.clock && t.workers == s.workers
    ensures var t := ApplyRow(cfg, s, step); forall id :: id in t.db.rows ==>
      t.db.rows[id].attempts == s.db.rows[id].attempts && t.db.rows[id].channel == s.db.rows[id].channel
  {}

  /** The state after a run. */
  function Exec(cfg: Config, run: seq<Step>): System {
    if run == [] then INITIAL else Apply(cfg, Exec(cfg, run[..|run| - 1]), run[|run| - 1])
  }

  lemma ExecSnoc(cfg: Config, run: seq<Step>, step: Step)
    ensures Exec(cfg, run + [step]) == Apply(cfg, Exec(cfg, run), step)
  {
    assert (run + [step])[..|run|] == run;
  }

  /** The state after further steps. */
  function Run(cfg: Config, s: System, steps: seq<Step>): System
    decreases |steps|
  {
    if steps == [] then s else Run(cfg, Apply(cfg, s, steps[0]), steps[1..])
  }

  /** Steps taken from a reachable state lead to a reachable state. */
  lemma {:induction false} RunIsReachable(cfg: Config, run: seq<Step>, steps: seq<Step>)
    ensures Run(cfg, Exec(cfg, run), steps) == Exec(cfg, run + steps)
    decreases |steps|
  {
    if steps == [] {
      assert run + steps == run;
    } else {
      assert run + [steps[0]] + steps[1..] == run + steps;
      ExecSnoc(cfg, run, steps[0]);
      RunIsReachable(cfg, run + [steps[0]], steps[1..]);
    }
  }

  lemma RunTwo(cfg: Config, s: System, a: Step, b: Step)
    ensures Run(cfg, s, [a, b]) == Apply(cfg, Apply(cfg, s, a), b)
  {
    var t := Apply(cfg, s, a);
    assert [a, b] == [a] + [b] && [b] == [b] + [];
    RunCons(cfg, s, a, [b]);
    RunCons(cfg, t, b, []);
  }

  lemma RunCons(cfg: Config, s: System, step: Step, steps: seq<Step>)
    ensures Run(cfg, s, [step] + steps) == Run(cfg, Apply(cfg, s, step), steps)
  {
    assert ([step] + steps)[1..] == steps;
  }

  lemma {:induction false} RunSnoc(cfg: Config, s: System, steps: seq<Step>, step: Step)
    ensures Run(cfg, s, steps + [step]) == Apply(cfg, Run(cfg, s, steps), step)
    decreases |steps|
  {
    if steps == [] {
      assert steps + [step] == [step] + [];
      RunCons(cfg, s, step, []);
    } else {
      assert steps + [step] == [steps[0]] + (steps[1..] + [step]);
      RunCons(cfg, s, steps[0], steps[1..] + [step]);
      RunSnoc(cfg, Apply(cfg, s, steps[0]), steps[1..], step);
    }
  }

  lemma {:induction false} RunConcat(cfg: Config, s: System, a: seq<Step>, b: seq<Step>)
    ensures Run(cfg, s, a + b) == Run(cfg, Run(cfg, s, a), b)
    decreases |a|
  {
    if a == [] {
      assert a + b == b;
    } else {
      assert a + b == [a[0]] + (a[1..] + b);
      RunCons(cfg, s, a[0], a[1..] + b);
      RunConcat(cfg, Apply(cfg, s, a[0]), a[1..], b);
    }
  }

  // ---------- what the lease is meant to guarantee ----------

  /** The worker owns the current attempt of its row. */
  ghost predicate OwnsAttempt(s: System, k: Worker) {
    && k.id in s.db.rows
    && s.db.rows[k.id].status.Processing?
    && s.db.rows[k.id].lastAttemptAt == Some(k.startedAt)
    && s.db.rows[k.id].channel == k.channel
  }

  ghost predicate Exclusive(s: System) {
    && (forall w :: w in s.workers ==> OwnsAttempt(s, s.workers[w]))
    && (forall v, w :: v in s.workers && w in s.workers && s.workers[v].id == s.workers[w].id ==> v == w)
  }

  /** A sent row stays exactly as it is until cleanup deletes it. */
  ghost predicate KeepsSent(before: System, after: System) {
    forall id :: id in before.db.rows && before.db.rows[id].status.Sent? && id in after.db.rows ==>
      after.db.rows[id] == before.db.rows[id]
  }

  /** No outbox row has two sent email logs. */
  ghost predicate SingleSend(s: System) {
    forall id, l, m :: 0 <= l < |s.db.logs| && 0 <= m < |s.db.logs| && SentLogOf(s.db.logs[l], id) &&
      SentLogOf(s.db.logs[m], id)
      ==> l == m
  }
}
