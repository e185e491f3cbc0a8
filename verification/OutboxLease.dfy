/** The lease: what keeps attempts apart, fences their final writes and makes SENT final over all runs.
    Each holds exactly when a task cannot outlive the processing timeout; mutual exclusion needs besides
    that no row is begun between its selection by cleanup and its deletion. */
module OutboxLease {
  import opened Wrappers
  import opened OutboxTables
  import opened OutboxProtocol
  import opened OutboxShape

  /** A live task owns its row, unless cleanup has deleted the row under it. */
  ghost predicate WorkerOk(cfg: Config, s: System, k: Worker) {
    && WorkerShape(s, k)
    && (if k.id in s.db.rows then OwnsAttempt(s, k) else cfg.beginSelected)
    && k.startedAt <= s.clock <= k.startedAt + cfg.taskLimit
    && (HasLog(k.phase) ==>
      && k.phase.log < |s.db.logs|
      && s.db.logs[k.phase.log].outbox == (if k.id in s.db.rows then Some(k.id) else None))
  }

  ghost predicate RowOk(s: System, id: Id, row: Row) {
    && RowShape(s, id, row)
    && (row.lastAttemptAt.Some? ==> row.lastAttemptAt.value <= s.clock)
    && (row.sentAt.Some? <==> row.status.Sent?)
    && (row.status.Sent? && row.channel.Telegram? ==> id in s.acked)
  }

  /** Two tasks share neither their row nor their log. */
  ghost predicate Apart(k: Worker, m: Worker) {
    k.id != m.id && (HasLog(k.phase) && HasLog(m.phase) ==> k.phase.log != m.phase.log)
  }

  ghost predicate WorkersOk(cfg: Config, s: System) {
    && (forall w :: w in s.workers ==> WorkerOk(cfg, s, s.workers[w]))
    && (forall v, w :: v in s.workers && w in s.workers && v != w ==> Apart(s.workers[v], s.workers[w]))
  }

  ghost predicate RowsOk(s: System) {
    forall id :: id in s.db.rows ==> RowOk(s, id, s.db.rows[id])
  }

  /** A row that cleanup has selected is still settled, or was begun again. */
  ghost predicate SelectedRowOk(cfg: Config, s: System, id: Id) {
    && id < s.nextId
    && (id in s.db.rows ==> !s.db.rows[id].status.Pending? && (cfg.beginSelected || IsSettled(s.db.rows[id])))
  }

  predicate IsSettled(row: Row) {
    row.status.Sent? || row.status.Failed?
  }

  ghost predicate SelectionOk(cfg: Config, s: System) {
    forall id :: id in s.selected ==> SelectedRowOk(cfg, s, id)
  }

  ghost predicate Lease(cfg: Config, s: System) {
    WorkersOk(cfg, s) && RowsOk(s) && LogsOk(s) && SelectionOk(cfg, s)
  }

  /** No live attempt looks stale to anyone, however old their reading of the clock is. */
  lemma LiveIsNotStale(cfg: Config, s: System, w: nat, checkedAt: nat)
    requires cfg.taskLimit <= cfg.timeout && Lease(cfg, s) && w in s.workers && checkedAt <= s.clock
    ensures s.workers[w].id in s.db.rows ==> !Stale(s.db.rows[s.workers[w].id], checkedAt - cfg.timeout)
  {
    assert WorkerOk(cfg, s, s.workers[w]);
  }

  lemma TickKeepsLease(cfg: Config, s: System, d: nat)
    requires Lease(cfg, s) && MayTick(cfg, s, d)
    ensures Lease(cfg, s.(clock := s.clock + d))
  {
    var t := s.(clock := s.clock + d);
    forall w | w in t.workers ensures WorkerOk(cfg, t, t.workers[w]) {
      assert WorkerOk(cfg, s, s.workers[w]);
    }
    forall i | i in t.selected ensures SelectedRowOk(cfg, t, i) {
      assert SelectedRowOk(cfg, s, i);
    }
  }

  lemma NewRowKeepsLease(cfg: Config, s: System, row: Row)
    requires Lease(cfg, s) && RowOk(s.(nextId := s.nextId + 1), s.nextId, row)
    ensures Lease(cfg, s.(db := s.db.(rows := s.db.rows[s.nextId := row]), nextId := s.nextId + 1))
  {
    var t := s.(db := s.db.(rows := s.db.rows[s.nextId := row]), nextId := s.nextId + 1);
    forall w | w in t.workers ensures WorkerOk(cfg, t, t.workers[w]) {
      assert WorkerOk(cfg, s, s.workers[w]);
    }
    forall i | i in t.db.rows ensures RowOk(t, i, t.db.rows[i]) {
      assert i in s.db.rows ==> RowOk(s, i, s.db.rows[i]);
    }
    forall i | i in t.selected ensures SelectedRowOk(cfg, t, i) {
      assert SelectedRowOk(cfg, s, i);
    }
    assert s.nextId !in s.db.rows by {
      assert s.nextId in s.db.rows ==> RowOk(s, s.nextId, s.db.rows[s.nextId]);
    }
  }

  lemma CreateKeepsLease(cfg: Config, s: System, step: Step)
    requires Lease(cfg, s) && step.Create?
    ensures Lease(cfg, Apply(cfg, s, step))
  {
    var row := NewRow(step.channel, step.kind, step.target, s.clock);
    if Conflicts(s.db.rows, s.nextId, row) {
      assert Apply(cfg, s, step) == s;
    } else {
      assert Apply(cfg, s, step) == s.(db := s.db.(rows := s.db.rows[s.nextId := row]), nextId := s.nextId + 1);
      NewRowKeepsLease(cfg, s, row);
    }
  }

  /** Logs keep their rows; new ones belong to `id`. */
  ghost predicate LogsExtend(before: seq<EmailLog>, after: seq<EmailLog>, id: Id) {
    && |before| <= |after|
    && (forall l :: 0 <= l < |before| ==> after[l].outbox == before[l].outbox)
    && (forall l :: |before| <= l < |after| ==> after[l].outbox == Some(id))
  }

  /** The task moves on to another phase, having added a log of its row or set the status of its own. */
  ghost predicate PhaseMoved(cfg: Config, s: System, t: System, w: nat) {
    && w in s.workers && w in t.workers
    && t == s.(db := t.db, workers := s.workers[w := t.workers[w]]) && t.db.rows == s.db.rows
    && LogsExtend(s.db.logs, t.db.logs, s.workers[w].id)
    && (|t.db.logs| > |s.db.logs| ==> s.workers[w].channel.Email? && s.workers[w].id in s.db.rows)
    && t.workers[w] == s.workers[w].(phase := t.workers[w].phase) && WorkerOk(cfg, t, t.workers[w])
    && var was := s.workers[w].phase; var phase := t.workers[w].phase;
    (HasLog(phase) ==> phase.log >= |s.db.logs| || (HasLog(was) && phase.log == was.log))
  }

  lemma PhaseMoveKeepsLease(cfg: Config, s: System, t: System, w: nat)
    requires Lease(cfg, s) && PhaseMoved(cfg, s, t, w)
    ensures Lease(cfg, t)
  {
    forall v | v in t.workers ensures WorkerOk(cfg, t, t.workers[v]) {
      assert v in s.workers && WorkerOk(cfg, s, s.workers[v]);
    }
    forall u, v | u in t.workers && v in t.workers && u != v ensures Apart(t.workers[u], t.workers[v]) {
      assert WorkerOk(cfg, s, s.workers[u]) && WorkerOk(cfg, s, s.workers[v]) && Apart(s.workers[u], s.workers[v]);
    }
    forall id | id in t.db.rows ensures RowOk(t, id, t.db.rows[id]) {
      assert RowOk(s, id, s.db.rows[id]);
    }
    forall i | i in t.selected ensures SelectedRowOk(cfg, t, i) {
      assert SelectedRowOk(cfg, s, i);
    }
  }

  lemma TaskStepMovesPhase(cfg: Config, s: System, step: Step)
    requires OfTask(step) && !step.Crash? && step.w in s.workers && WorkerOk(cfg, s, s.workers[step.w])
    requires ApplyWorker(cfg, s, step) != s
    ensures PhaseMoved(cfg, s, ApplyWorker(cfg, s, step), step.w)
  {}

  lemma WorkerStepKeepsLease(cfg: Config, s: System, step: Step)
    requires Lease(cfg, s) && OfTask(step)
    ensures Lease(cfg, Apply(cfg, s, step))
  {
    var t := ApplyWorker(cfg, s, step);
    assert Apply(cfg, s, step) == t;
    if step.w in s.workers && t != s {
      if step.Crash? {
        GoneKeepsLease(cfg, s, step.w);
      } else {
        TaskStepMovesPhase(cfg, s, step);
        PhaseMoveKeepsLease(cfg, s, t, step.w);
      }
    }
  }

  /** One row is written that belongs to no task of the new state. */
  ghost predicate RowWritten(s: System, t: System, id: Id) {
    && id in s.db.rows && id in t.db.rows
    && t == s.(db := t.db, workers := t.workers, acked := t.acked)
    && t.db == s.db.(rows := s.db.rows[id := t.db.rows[id]])
    && t.db.rows[id].channel == s.db.rows[id].channel
    && s.acked <= t.acked
    && (forall w :: w in t.workers ==> w in s.workers && t.workers[w] == s.workers[w] && t.workers[w].id != id)
  }

  lemma RowWriteKeepsLease(cfg: Config, s: System, t: System, id: Id)
    requires Lease(cfg, s) && RowWritten(s, t, id) && RowOk(t, id, t.db.rows[id])
    requires id in s.selected ==> SelectedRowOk(cfg, t, id)
    ensures Lease(cfg, t)
  {
    forall i | i in t.selected ensures SelectedRowOk(cfg, t, i) {
      assert SelectedRowOk(cfg, s, i);
    }
    forall w | w in t.workers ensures WorkerOk(cfg, t, t.workers[w]) {
      assert WorkerOk(cfg, s, s.workers[w]);
    }
    forall i | i in t.db.rows ensures RowOk(t, i, t.db.rows[i]) {
      assert i != id ==> RowOk(s, i, s.db.rows[i]);
    }
  }

  lemma NewAttemptKeepsLease(cfg: Config, s: System, w: nat, id: Id)
    requires Lease(cfg, s) && id in s.db.rows && !s.db.rows[id].status.Sent? && w !in s.workers
    requires cfg.beginSelected || id !in s.selected
    requires forall v :: v in s.workers ==> s.workers[v].id != id
    ensures var begun := BegunRow(s.db.rows[id], s.clock);
      Lease(cfg, s.(db := s.db.(rows := s.db.rows[id := begun]),
        workers := s.workers[w := Worker(id, begun.channel, s.clock, Started)]))
  {
    var begun := BegunRow(s.db.rows[id], s.clock);
    var written := s.(db := s.db.(rows := s.db.rows[id := begun]));
    assert RowOk(s, id, s.db.rows[id]);
    RowWriteKeepsLease(cfg, s, written, id);
    var t := written.(workers := s.workers[w := Worker(id, begun.channel, s.clock, Started)]);
    forall v | v in t.workers ensures WorkerOk(cfg, t, t.workers[v]) {
      assert v in s.workers ==> WorkerOk(cfg, written, s.workers[v]);
    }
    assert forall i :: i in t.db.rows ==> RowOk(written, i, t.db.rows[i]);
  }

  lemma BeginKeepsLease(cfg: Config, s: System, step: Step)
    requires cfg.taskLimit <= cfg.timeout && Lease(cfg, s) && step.Begin?
    ensures Lease(cfg, Apply(cfg, s, step))
  {
    var t := Apply(cfg, s, step);
    var id := step.id;
    if t != s {
      forall w | w in s.workers ensures s.workers[w].id != id {
        LiveIsNotStale(cfg, s, w, step.checkedAt);
      }
      if BeginTx(s.db, id, cfg.timeout, step.checkedAt, s.clock).1.Begun? {
        NewAttemptKeepsLease(cfg, s, step.w, id);
      } else {
        assert RowOk(s, id, s.db.rows[id]);
        RowWriteKeepsLease(cfg, s, t, id);
      }
    }
  }

  lemma FinalStepWrites(cfg: Config, s: System, step: Step)
    requires Lease(cfg, s) && OneInFlightPerTarget(s.db.rows) && IsFinalWrite(step)
    requires ApplyFinal(s, step) != s && s.workers[step.w].id in s.db.rows
    ensures var t := ApplyFinal(s, step); var id := s.workers[step.w].id;
      RowWritten(s, t, id) && RowOk(t, id, t.db.rows[id]) && (id in s.selected ==> SelectedRowOk(cfg, t, id))
  {
    var k := s.workers[step.w];
    assert WorkerOk(cfg, s, k);
    assert RowOk(s, k.id, s.db.rows[k.id]);
    InFlightRowNeverRejected(s.db.rows, k.id, ApplyFinal(s, step).db.rows[k.id]);
  }

  /** The task ends, its row has been deleted under it. */
  lemma GoneKeepsLease(cfg: Config, s: System, w: nat)
    requires Lease(cfg, s)
    ensures Lease(cfg, Gone(s, w))
  {
    var t := Gone(s, w);
    forall v | v in t.workers ensures WorkerOk(cfg, t, t.workers[v]) {
      assert WorkerOk(cfg, s, s.workers[v]);
    }
    forall i | i in t.selected ensures SelectedRowOk(cfg, t, i) {
      assert SelectedRowOk(cfg, s, i);
    }
  }

  lemma FinalStepKeepsLease(cfg: Config, s: System, step: Step)
    requires Lease(cfg, s) && OneInFlightPerTarget(s.db.rows) && IsFinalWrite(step)
    ensures Lease(cfg, Apply(cfg, s, step))
  {
    var t := ApplyFinal(s, step);
    assert Apply(cfg, s, step) == t;
    if t != s {
      var id := s.workers[step.w].id;
      if id in s.db.rows {
        FinalStepWrites(cfg, s, step);
        RowWriteKeepsLease(cfg, s, t, id);
      } else {
        assert t == Gone(s, step.w);
        GoneKeepsLease(cfg, s, step.w);
      }
    }
  }

  /** The row of a live worker is out of reach of the reapers and the feedback consumer. */
  lemma OthersLeaveAttemptsAlone(cfg: Config, s: System, step: Step, w: nat)
    requires cfg.taskLimit <= cfg.timeout && Lease(cfg, s) && w in s.workers
    requires OnRow(step) && !step.DeleteOld? && ApplyRow(cfg, s, step).db != s.db
    ensures s.workers[w].id != step.id
  {
    assert WorkerOk(cfg, s, s.workers[w]);
  }

  lemma RowStepWrites(cfg: Config, s: System, step: Step)
    requires cfg.taskLimit <= cfg.timeout && Lease(cfg, s)
    requires OnRow(step) && !step.DeleteOld? && ApplyRow(cfg, s, step).db != s.db
    ensures var t := ApplyRow(cfg, s, step);
      && RowWritten(s, t, step.id) && RowOk(t, step.id, t.db.rows[step.id])
      && (step.id in s.selected ==> SelectedRowOk(cfg, t, step.id))
  {
    assert RowOk(s, step.id, s.db.rows[step.id]);
    forall w | w in s.workers ensures s.workers[w].id != step.id {
      OthersLeaveAttemptsAlone(cfg, s, step, w);
    }
  }

  /** Steps that leave the tables alone: an ack for a row that is not delivering, and a selection. */
  lemma NoteKeepsLease(cfg: Config, s: System, t: System)
    requires Lease(cfg, s) && t == s.(acked := t.acked, selected := t.selected) && s.acked <= t.acked
    requires forall id :: id in t.selected && id !in s.selected ==> SelectedRowOk(cfg, s, id)
    ensures Lease(cfg, t)
  {
    forall w | w in t.workers ensures WorkerOk(cfg, t, t.workers[w]) {
      assert WorkerOk(cfg, s, s.workers[w]);
    }
    forall i | i in t.selected ensures SelectedRowOk(cfg, t, i) {
      assert SelectedRowOk(cfg, s, i);
    }
  }

  lemma DeleteKeepsLease(cfg: Config, s: System, id: Id)
    requires Lease(cfg, s) && id in s.selected
    ensures Lease(cfg, s.(db := DeleteTx(s.db, id), selected := s.selected - {id}))
  {
    var t := s.(db := DeleteTx(s.db, id), selected := s.selected - {id});
    assert SelectedRowOk(cfg, s, id);
    forall w | w in t.workers ensures WorkerOk(cfg, t, t.workers[w]) {
      assert WorkerOk(cfg, s, s.workers[w]);
    }
    forall i | i in t.selected ensures SelectedRowOk(cfg, t, i) {
      assert SelectedRowOk(cfg, s, i);
    }
  }

  lemma RowStepKeepsLease(cfg: Config, s: System, step: Step)
    requires cfg.taskLimit <= cfg.timeout && Lease(cfg, s) && OnRow(step)
    ensures Lease(cfg, Apply(cfg, s, step))
  {
    var t := ApplyRow(cfg, s, step);
    assert Apply(cfg, s, step) == t;
    if step.DeleteOld? {
      if step.id in s.selected { DeleteKeepsLease(cfg, s, step.id); }
    } else if t.db == s.db {
      assert step.id in s.db.rows ==> RowOk(s, step.id, s.db.rows[step.id]);
      NoteKeepsLease(cfg, s, t);
    } else {
      RowStepWrites(cfg, s, step);
      RowWriteKeepsLease(cfg, s, t, step.id);
    }
  }

  lemma StepKeepsLease(cfg: Config, s: System, step: Step)
    requires cfg.taskLimit <= cfg.timeout && Lease(cfg, s) && OneInFlightPerTarget(s.db.rows)
    ensures Lease(cfg, Apply(cfg, s, step))
  {
    if OfTask(step) {
      WorkerStepKeepsLease(cfg, s, step);
    } else if IsFinalWrite(step) {
      FinalStepKeepsLease(cfg, s, step);
    } else if OnRow(step) {
      RowStepKeepsLease(cfg, s, step);
    } else if step.Begin? {
      BeginKeepsLease(cfg, s, step);
    } else if step.Create? {
      CreateKeepsLease(cfg, s, step);
    } else if MayTick(cfg, s, step.d) {
      TickRuns(cfg, s, step.d);
      TickKeepsLease(cfg, s, step.d);
    }
  }

  /** Every reachable state satisfies the lease invariant. */
  lemma {:induction false} ReachableLease(cfg: Config, run: seq<Step>)
    requires cfg.taskLimit <= cfg.timeout
    ensures Lease(cfg, Exec(cfg, run))
  {
    if run != [] {
      ReachableLease(cfg, run[..|run| - 1]);
      AlwaysOneInFlight(cfg, run[..|run| - 1]);
      StepKeepsLease(cfg, Exec(cfg, run[..|run| - 1]), run[|run| - 1]);
    }
  }

  // ---------- the exact condition ----------

  /** The only row, its logs still empty, is begun. */
  lemma BeginAlone(cfg: Config, s: System, w: nat)
    requires MayBegin(cfg, s, w, 0, s.clock) && s.db.rows.Keys == {0} && s.db.logs == []
    requires var row := s.db.rows[0];
      row.status.Pending? || row.status.Failed? || (row.status.Processing? && Stale(row, s.clock - cfg.timeout))
    ensures Apply(cfg, s, Begin(w, 0, s.clock)) ==
      s.(db := Tables(s.db.rows[0 := BegunRow(s.db.rows[0], s.clock)], []),
         workers := s.workers[w := Worker(0, s.db.rows[0].channel, s.clock, Started)])
  {
    BeginRuns(cfg, s, w, 0, s.clock);
    assert forall other :: other in s.db.rows ==> other == 0;
  }

  /** A row with its first attempt. */
  function OneAttempt(channel: Channel, target: Option<Target>): System {
    System(0, Tables(map[0 := BegunRow(NewRow(channel, "order", target, 0), 0)], []),
           map[0 := Worker(0, channel, 0, Started)], 1, {}, {})
  }

  lemma FirstAttempt(cfg: Config, channel: Channel, target: Option<Target>) returns (run: seq<Step>)
    ensures run == [Create(channel, "order", target), Begin(0, 0, 0)] && Exec(cfg, run) == OneAttempt(channel, target)
  {
    var created: seq<Step> := [] + [Create(channel, "order", target)];
    run := created + [Begin(0, 0, 0)];
    ExecSnoc(cfg, [], Create(channel, "order", target));
    ExecSnoc(cfg, created, Begin(0, 0, 0));
    FirstSteps(cfg, channel, target);
  }

  lemma FirstSteps(cfg: Config, channel: Channel, target: Option<Target>)
    ensures Apply(cfg, Apply(cfg, INITIAL, Create(channel, "order", target)), Begin(0, 0, 0)) ==
      OneAttempt(channel, target)
  {
    var row := NewRow(channel, "order", target, 0);
    var created := System(0, Tables(map[0 := row], []), map[], 1, {}, {});
    assert Apply(cfg, INITIAL, Create(channel, "order", target)) == created;
    BeginAlone(cfg, created, 0);
  }

  /** An overlap: the first attempt is still live when the row turns stale, and a second one begins. */
  function OverlapState(cfg: Config, channel: Channel, target: Option<Target>): System {
    var now := cfg.timeout + 1;
    var first := OneAttempt(channel, target);
    first.(clock := now, db := Tables(first.db.rows[0 := BegunRow(first.db.rows[0], now)], []),
           workers := first.workers[1 := Worker(0, channel, now, Started)])
  }

  lemma OverlapIsReachable(cfg: Config, channel: Channel, target: Option<Target>) returns (run: seq<Step>)
    requires cfg.taskLimit > cfg.timeout
    ensures Exec(cfg, run) == OverlapState(cfg, channel, target)
  {
    var first := FirstAttempt(cfg, channel, target);
    run := first + [Tick(cfg.timeout + 1)] + [Begin(1, 0, cfg.timeout + 1)];
    ExecSnoc(cfg, first, Tick(cfg.timeout + 1));
    ExecSnoc(cfg, first + [Tick(cfg.timeout + 1)], Begin(1, 0, cfg.timeout + 1));
    TickRuns(cfg, OneAttempt(channel, target), cfg.timeout + 1);
    SecondBegins(cfg, channel, target);
  }

  lemma SecondBegins(cfg: Config, channel: Channel, target: Option<Target>)
    requires cfg.taskLimit > cfg.timeout
    ensures var later := OneAttempt(channel, target).(clock := cfg.timeout + 1);
      Apply(cfg, later, Begin(1, 0, later.clock)) == OverlapState(cfg, channel, target)
  {
    BeginAlone(cfg, OneAttempt(channel, target).(clock := cfg.timeout + 1), 1);
  }

  /** The row has failed, cleanup has selected it, and then it was begun again. */
  function BegunSelected(channel: Channel): System {
    var failed := FailedRow(OneAttempt(channel, None).db.rows[0], "", 0);
    System(1, Tables(map[0 := BegunRow(failed, 1)], []), map[1 := Worker(0, channel, 1, Started)], 1, {}, {0})
  }

  lemma BeginAfterSelection(cfg: Config, channel: Channel) returns (run: seq<Step>)
    requires cfg.beginSelected
    ensures Exec(cfg, run) == BegunSelected(channel)
  {
    var first := FirstAttempt(cfg, channel, None);
    var failed := first + [Raise(0)] + [WriteFailed(0, "")];
    run := failed + [Tick(1)] + [SelectOld(0, 0, 1)] + [Begin(1, 0, 1)];
    ExecSnoc(cfg, first, Raise(0));
    ExecSnoc(cfg, first + [Raise(0)], WriteFailed(0, ""));
    ExecSnoc(cfg, failed, Tick(1));
    ExecSnoc(cfg, failed + [Tick(1)], SelectOld(0, 0, 1));
    ExecSnoc(cfg, failed + [Tick(1)] + [SelectOld(0, 0, 1)], Begin(1, 0, 1));
    FirstAttemptFails(cfg, channel);
    FailedIsBegunAgain(cfg, channel);
  }

  function FirstFailed(channel: Channel): System {
    System(0, Tables(map[0 := FailedRow(OneAttempt(channel, None).db.rows[0], "", 0)], []), map[], 1, {}, {})
  }

  lemma FirstAttemptFails(cfg: Config, channel: Channel)
    ensures Apply(cfg, Apply(cfg, OneAttempt(channel, None), Raise(0)), WriteFailed(0, "")) == FirstFailed(channel)
  {
    assert Apply(cfg, OneAttempt(channel, None), Raise(0)).workers == map[0 := Worker(0, channel, 0, Raising)];
  }

  lemma FailedIsBegunAgain(cfg: Config, channel: Channel)
    requires cfg.beginSelected
    ensures var ticked := Apply(cfg, FirstFailed(channel), Tick(1));
      Apply(cfg, Apply(cfg, ticked, SelectOld(0, 0, 1)), Begin(1, 0, 1)) == BegunSelected(channel)
  {
    var s := FirstFailed(channel);
    TickRuns(cfg, s, 1);
    assert Apply(cfg, s.(clock := 1), SelectOld(0, 0, 1)) == s.(clock := 1, selected := {0});
    BeginAlone(cfg, s.(clock := 1, selected := {0}), 1);
  }

  /** In every reachable state each live attempt owns its row and no row has two, if and only if a
      task cannot outlive the processing timeout and no row is begun again between its selection by
      cleanup and its deletion. */
  lemma MutualExclusionIff(cfg: Config)
    ensures (forall run :: Exclusive(Exec(cfg, run))) <==> cfg.taskLimit <= cfg.timeout && !cfg.beginSelected
  {
    if cfg.taskLimit > cfg.timeout {
      var run := OverlapIsReachable(cfg, Email, None);
      var s := Exec(cfg, run);
      assert 0 in s.workers && 1 in s.workers && s.workers[0].id == s.workers[1].id;
      assert !Exclusive(s);
    } else if cfg.beginSelected {
      var run := RowDeletedUnderTask(cfg);
      var s := Exec(cfg, run);
      assert 1 in s.workers && !OwnsAttempt(s, s.workers[1]);
      assert !Exclusive(s);
    } else {
      forall run ensures Exclusive(Exec(cfg, run)) {
        ReachableLease(cfg, run);
        var s := Exec(cfg, run);
        assert forall w :: w in s.workers ==> WorkerOk(cfg, s, s.workers[w]);
      }
    }
  }

  /** The deletion goes by id: the live task's row is gone, and its final write will not find it. */
  lemma RowDeletedUnderTask(cfg: Config) returns (run: seq<Step>)
    requires cfg.beginSelected
    ensures var s := Exec(cfg, run);
      1 in s.workers && s.workers[1].id == 0 && 0 !in s.db.rows && SendTx(s.db, 0, s.clock).1.Missing?
  {
    var begun := BeginAfterSelection(cfg, Email);
    ExecSnoc(cfg, begun, DeleteOld(0));
    run := begun + [DeleteOld(0)];
  }

  /** Hard limits in seconds: of the notification task, and of tasks that do not name one. */
  const TASK_TIME_LIMIT: nat := 120
  const DEFAULT_TIME_LIMIT: nat := 300

  /** A processing timeout of so many minutes is safe for a hard limit if and only if it is not shorter:
      two minutes for the notification task, five for a task with the default limit. */
  lemma TimeoutMinutesIff(limit: nat, minutes: nat, maxAttempts: nat, lateRaise: bool)
    ensures var cfg := Config(60 * minutes, limit, maxAttempts, lateRaise, false);
      (forall run :: Exclusive(Exec(cfg, run))) <==> limit <= 60 * minutes
    ensures limit == TASK_TIME_LIMIT ==> (limit <= 60 * minutes <==> 2 <= minutes)
    ensures limit == DEFAULT_TIME_LIMIT ==> (limit <= 60 * minutes <==> 5 <= minutes)
  {
    MutualExclusionIff(Config(60 * minutes, limit, maxAttempts, lateRaise, false));
  }

  /** Any step from a reachable state leaves every sent row as it is or deletes it, if and only if a
      task cannot outlive the processing timeout: then no unconditional write can hit a sent row. */
  lemma SentIsFinalIff(cfg: Config)
    ensures (forall run, step :: KeepsSent(Exec(cfg, run), Apply(cfg, Exec(cfg, run), step))) <==>
      cfg.taskLimit <= cfg.timeout
  {
    if cfg.taskLimit <= cfg.timeout {
      forall run, step ensures KeepsSent(Exec(cfg, run), Apply(cfg, Exec(cfg, run), step)) {
        ReachableLease(cfg, run);
        LeaseKeepsSent(cfg, Exec(cfg, run), step);
      }
    } else {
      var run := SentIsUndone(cfg);
      assert !KeepsSent(Exec(cfg, run), Apply(cfg, Exec(cfg, run), WriteFailed(1, "")));
    }
  }

  /** With overlapping attempts the first can write SENT and the second FAILED over it. */
  lemma SentIsUndone(cfg: Config) returns (run: seq<Step>)
    requires cfg.taskLimit > cfg.timeout
    ensures !KeepsSent(Exec(cfg, run), Apply(cfg, Exec(cfg, run), WriteFailed(1, "")))
  {
    var overlap := OverlapIsReachable(cfg, Email, None);
    ExecSnoc(cfg, overlap, WriteSent(0));
    ExecSnoc(cfg, overlap + [WriteSent(0)], Raise(1));
    run := overlap + [WriteSent(0)] + [Raise(1)];
    SecondAttemptRaises(cfg);
    var o := OverlapState(cfg, Email, None);
    FailedOverSent(cfg, Exec(cfg, run), SentRow(o.db.rows[0], o.clock, o.clock), o.workers[1].(phase := Raising));
  }

  lemma SecondAttemptRaises(cfg: Config)
    ensures var o := OverlapState(cfg, Email, None); var row := SentRow(o.db.rows[0], o.clock, o.clock);
      Apply(cfg, Apply(cfg, o, WriteSent(0)), Raise(1)) ==
      System(o.clock, Tables(map[0 := row], []), map[1 := o.workers[1].(phase := Raising)], 1, {}, {})
  {
    var o := OverlapState(cfg, Email, None);
    var row := SentRow(o.db.rows[0], o.clock, o.clock);
    assert o.workers - {0} == map[1 := o.workers[1]];
    assert Apply(cfg, o, WriteSent(0)) == System(o.clock, Tables(map[0 := row], []), map[1 := o.workers[1]], 1, {}, {});
  }

  lemma FailedOverSent(cfg: Config, s: System, row: Row, k: Worker)
    requires s == System(s.clock, Tables(map[0 := row], []), map[1 := k], 1, {}, {})
    requires row.status.Sent? && k.phase.Raising? && k.id == 0
    ensures !KeepsSent(s, Apply(cfg, s, WriteFailed(1, "")))
  {
    assert Apply(cfg, s, WriteFailed(1, "")).db.rows[0].status.Failed?;
  }

  lemma LeaseKeepsSent(cfg: Config, s: System, step: Step)
    requires cfg.taskLimit <= cfg.timeout && Lease(cfg, s)
    ensures KeepsSent(s, Apply(cfg, s, step))
  {
    forall id ensures LegalChange(cfg, s, Apply(cfg, s, step), id) {
      StepIsLegal(cfg, s, step, id);
    }
    LegalKeepsSent(cfg, s, Apply(cfg, s, step));
  }

  lemma LegalKeepsSent(cfg: Config, s: System, t: System)
    requires forall id :: LegalChange(cfg, s, t, id)
    ensures KeepsSent(s, t)
  {
    forall id | id in s.db.rows && s.db.rows[id].status.Sent? && id in t.db.rows
      ensures t.db.rows[id] == s.db.rows[id] {
      assert LegalChange(cfg, s, t, id);
    }
  }

  // ---------- fencing and legal transitions ----------

  /** The unconditional final write of a live task hits its own processing attempt, is never
      refused by the database and changes nothing but that row; only if selected rows can be begun may
      it find its row deleted. */
  lemma {:induction false} FinalWritesAreFenced(cfg: Config, run: seq<Step>, w: nat, error: string)
    requires cfg.taskLimit <= cfg.timeout
    requires w in Exec(cfg, run).workers
    ensures Fenced(cfg, Exec(cfg, run), Exec(cfg, run).workers[w], error)
  {
    ReachableLease(cfg, run);
    AlwaysOneInFlight(cfg, run);
    LeaseFences(cfg, Exec(cfg, run), w, error);
  }

  /** Every final write of every live task, with any error text. */
  ghost predicate AllFenced(cfg: Config, s: System) {
    forall w, error :: w in s.workers ==> Fenced(cfg, s, s.workers[w], error)
  }

  /** In every run the final writes are fenced, if and only if a task cannot outlive the timeout. */
  lemma FencedIff(cfg: Config)
    ensures (forall run :: AllFenced(cfg, Exec(cfg, run))) <==> cfg.taskLimit <= cfg.timeout
  {
    if cfg.taskLimit <= cfg.timeout {
      forall run ensures AllFenced(cfg, Exec(cfg, run)) {
        forall w, error | w in Exec(cfg, run).workers
          ensures Fenced(cfg, Exec(cfg, run), Exec(cfg, run).workers[w], error) {
          FinalWritesAreFenced(cfg, run, w, error);
        }
      }
    } else {
      var run := OverlapIsReachable(cfg, Email, None);
      var s := Exec(cfg, run);
      assert 0 in s.workers && !Fenced(cfg, s, s.workers[0], "");
    }
  }

  ghost predicate Fenced(cfg: Config, s: System, k: Worker, error: string) {
    if k.id in s.db.rows then
      var row := s.db.rows[k.id];
      && OwnsAttempt(s, k)
      && FailTx(s.db, k.id, error, s.clock) == Wrote(s.db, k.id, FailedRow(row, Truncated(error), s.clock))
      && DeliverTx(s.db, k.id, s.clock) == Wrote(s.db, k.id, DeliveringRow(row, s.clock))
      && SendTx(s.db, k.id, s.clock) == Wrote(s.db, k.id, SentRow(row, s.clock, s.clock))
    else
      cfg.beginSelected
  }

  function Wrote(t: Tables, id: Id, row: Row): (Tables, WriteResult) {
    (t.(rows := t.rows[id := row]), Written)
  }

  lemma LeaseFences(cfg: Config, s: System, w: nat, error: string)
    requires Lease(cfg, s) && OneInFlightPerTarget(s.db.rows) && w in s.workers
    ensures Fenced(cfg, s, s.workers[w], error)
  {
    var id := s.workers[w].id;
    assert WorkerOk(cfg, s, s.workers[w]);
    if id in s.db.rows {
      InFlightRowNeverRejected(s.db.rows, id, FailedRow(s.db.rows[id], Truncated(error), s.clock));
      InFlightRowNeverRejected(s.db.rows, id, DeliveringRow(s.db.rows[id], s.clock));
      InFlightRowNeverRejected(s.db.rows, id, SentRow(s.db.rows[id], s.clock, s.clock));
    }
  }

  /** The status diagram of an outbox row. */
  ghost predicate LegalEdge(from: Row, to: Row) {
    match to.status
    case Pending => false
    case Processing =>
      (from.status.Pending? || from.status.Failed? || from.status.Processing?) && to.attempts == from.attempts + 1
    case Delivering => from.status.Processing? && to.channel.Telegram? && to.attempts == from.attempts
    case Sent => (from.status.Processing? || from.status.Delivering?) && to.sentAt.Some? && to.attempts == from.attempts
    case Failed =>
      (from.status.Processing? || from.status.Delivering?) && to.sentAt.None? && to.attempts == from.attempts
  }

  ghost predicate SameIdentity(from: Row, to: Row) {
    to.channel == from.channel && to.kind == from.kind && to.target == from.target && to.createdAt == from.createdAt
  }

  ghost predicate LegalChange(cfg: Config, s: System, t: System, id: Id) {
    && (id in s.db.rows && id in t.db.rows && t.db.rows[id] != s.db.rows[id] ==>
      LegalEdge(s.db.rows[id], t.db.rows[id]) && SameIdentity(s.db.rows[id], t.db.rows[id]))
    && (id !in s.db.rows && id in t.db.rows ==> id == s.nextId && t.db.rows[id].status.Pending?)
    && (id in s.db.rows && id !in t.db.rows ==>
      IsSettled(s.db.rows[id]) || (cfg.beginSelected && !s.db.rows[id].status.Pending?))
  }

  lemma FinalStepIsLegal(cfg: Config, s: System, step: Step, id: Id)
    requires Lease(cfg, s) && IsFinalWrite(step)
    ensures LegalChange(cfg, s, Apply(cfg, s, step), id)
  {
    assert Apply(cfg, s, step) == ApplyFinal(s, step);
    if step.w in s.workers {
      assert WorkerOk(cfg, s, s.workers[step.w]);
      assert s.workers[step.w].id in s.db.rows ==> RowOk(s, s.workers[step.w].id, s.db.rows[s.workers[step.w].id]);
    }
  }

  lemma RowStepIsLegal(cfg: Config, s: System, step: Step, id: Id)
    requires Lease(cfg, s) && OnRow(step)
    ensures LegalChange(cfg, s, Apply(cfg, s, step), id)
  {
    var t := ApplyRow(cfg, s, step);
    assert Apply(cfg, s, step) == t;
    if id == step.id && id in s.db.rows {
      assert RowOk(s, id, s.db.rows[id]);
      assert id in s.selected ==> SelectedRowOk(cfg, s, id);
    } else {
      assert (id in t.db.rows <==> id in s.db.rows) && (id in s.db.rows ==> t.db.rows[id] == s.db.rows[id]);
    }
  }

  lemma BeginStepIsLegal(cfg: Config, s: System, step: Step, id: Id)
    requires step.Begin?
    ensures LegalChange(cfg, s, Apply(cfg, s, step), id)
  {}

  lemma QuietStepIsLegal(cfg: Config, s: System, step: Step, id: Id)
    requires Lease(cfg, s) && (step.Tick? || step.Create?)
    ensures LegalChange(cfg, s, Apply(cfg, s, step), id)
  {
    assert s.nextId in s.db.rows ==> RowOk(s, s.nextId, s.db.rows[s.nextId]);
  }

  lemma StepIsLegal(cfg: Config, s: System, step: Step, id: Id)
    requires Lease(cfg, s)
    ensures LegalChange(cfg, s, Apply(cfg, s, step), id)
  {
    if IsFinalWrite(step) {
      FinalStepIsLegal(cfg, s, step, id);
    } else if OnRow(step) {
      RowStepIsLegal(cfg, s, step, id);
    } else if OfTask(step) {
      TaskFrame(cfg, s, step);
    } else if step.Begin? {
      BeginStepIsLegal(cfg, s, step, id);
    } else {
      QuietStepIsLegal(cfg, s, step, id);
    }
  }

  /** Under the lease every step moves a row along the diagram or leaves it alone; rows appear only
      pending with fresh ids, only sent and failed rows disappear (or rows begun after their
      selection, if that can happen), and sent_at tells the sent rows. */
  lemma {:induction false} OnlyLegalEdges(cfg: Config, run: seq<Step>, step: Step, id: Id)
    requires cfg.taskLimit <= cfg.timeout
    ensures LegalChange(cfg, Exec(cfg, run), Apply(cfg, Exec(cfg, run), step), id)
    ensures var s := Exec(cfg, run); id in s.db.rows ==> (s.db.rows[id].sentAt.Some? <==> s.db.rows[id].status.Sent?)
  {
    ReachableLease(cfg, run);
    StepIsLegal(cfg, Exec(cfg, run), step, id);
    assert id in Exec(cfg, run).db.rows ==> RowOk(Exec(cfg, run), id, Exec(cfg, run).db.rows[id]);
  }

  /** The status diagram holds in every run, if and only if a task cannot outlive the timeout. */
  lemma LegalEdgesIff(cfg: Config)
    ensures (forall run, step, id :: LegalChange(cfg, Exec(cfg, run), Apply(cfg, Exec(cfg, run), step), id)) <==>
      cfg.taskLimit <= cfg.timeout
  {
    if cfg.taskLimit <= cfg.timeout {
      forall run, step, id ensures LegalChange(cfg, Exec(cfg, run), Apply(cfg, Exec(cfg, run), step), id) {
        OnlyLegalEdges(cfg, run, step, id);
      }
    } else {
      var run := SentIsUndone(cfg);
      if forall id :: LegalChange(cfg, Exec(cfg, run), Apply(cfg, Exec(cfg, run), WriteFailed(1, "")), id) {
        LegalKeepsSent(cfg, Exec(cfg, run), Apply(cfg, Exec(cfg, run), WriteFailed(1, "")));
      }
    }
  }

  ghost predicate DeletesOnlySettled(s: System, t: System) {
    forall id :: id in s.db.rows && id !in t.db.rows ==> IsSettled(s.db.rows[id])
  }

  /** Cleanup deletes only SENT and FAILED rows, in any run, under exactly the condition of mutual
      exclusion. */
  lemma DeletesOnlySettledIff(cfg: Config)
    ensures (forall run, step :: DeletesOnlySettled(Exec(cfg, run), Apply(cfg, Exec(cfg, run), step))) <==>
      cfg.taskLimit <= cfg.timeout && !cfg.beginSelected
  {
    if cfg.taskLimit > cfg.timeout {
      var run := DeliveringIsDeleted(cfg);
    } else if cfg.beginSelected {
      var run := BeginAfterSelection(cfg, Email);
      UnsettledIsDeleted(cfg, Exec(cfg, run));
    } else {
      forall run, step ensures DeletesOnlySettled(Exec(cfg, run), Apply(cfg, Exec(cfg, run), step)) {
        ReachableLease(cfg, run);
        var s := Exec(cfg, run);
        forall id | id in s.db.rows && id !in Apply(cfg, s, step).db.rows ensures IsSettled(s.db.rows[id]) {
          StepIsLegal(cfg, s, step, id);
        }
      }
    }
  }

  /** With overlapping attempts one fails the row, cleanup selects it, and the other dispatches it. */
  lemma DeliveringIsDeleted(cfg: Config) returns (run: seq<Step>)
    requires cfg.taskLimit > cfg.timeout
    ensures !DeletesOnlySettled(Exec(cfg, run), Apply(cfg, Exec(cfg, run), DeleteOld(0)))
  {
    var selected := SelectedUnderTask(cfg);
    run := selected + [Publish(1)] + [WriteDelivering(1)];
    ExecSnoc(cfg, selected, Publish(1));
    ExecSnoc(cfg, selected + [Publish(1)], WriteDelivering(1));
    OtherDispatches(cfg);
    UnsettledIsDeleted(cfg, Exec(cfg, run));
  }

  lemma SelectedUnderTask(cfg: Config) returns (run: seq<Step>)
    requires cfg.taskLimit > cfg.timeout
    ensures Exec(cfg, run) == FailedAndSelected(cfg)
  {
    var overlap := OverlapIsReachable(cfg, Telegram, None);
    var failed := overlap + [Raise(0)] + [WriteFailed(0, "")];
    run := failed + [Tick(1)] + [SelectOld(0, 0, cfg.timeout + 2)];
    ExecSnoc(cfg, overlap, Raise(0));
    ExecSnoc(cfg, overlap + [Raise(0)], WriteFailed(0, ""));
    ExecSnoc(cfg, failed, Tick(1));
    ExecSnoc(cfg, failed + [Tick(1)], SelectOld(0, 0, cfg.timeout + 2));
    OneOfTwoFails(cfg, Telegram, None);
    FailedIsSelected(cfg);
  }

  lemma UnsettledIsDeleted(cfg: Config, s: System)
    requires 0 in s.selected && 0 in s.db.rows && !IsSettled(s.db.rows[0])
    ensures !DeletesOnlySettled(s, Apply(cfg, s, DeleteOld(0)))
  {
    assert 0 !in Apply(cfg, s, DeleteOld(0)).db.rows;
  }

  /** The first of two overlapping attempts has failed the row, the second is live. */
  function OneFailed(cfg: Config, channel: Channel, target: Option<Target>): System {
    var o := OverlapState(cfg, channel, target);
    System(o.clock, Tables(map[0 := FailedRow(o.db.rows[0], "", o.clock)], []), map[1 := o.workers[1]], 1, {}, {})
  }

  lemma OneOfTwoFails(cfg: Config, channel: Channel, target: Option<Target>)
    ensures Apply(cfg, Apply(cfg, OverlapState(cfg, channel, target), Raise(0)), WriteFailed(0, "")) ==
      OneFailed(cfg, channel, target)
  {
    var o := OverlapState(cfg, channel, target);
    var raising := Apply(cfg, o, Raise(0));
    assert raising == o.(workers := o.workers[0 := o.workers[0].(phase := Raising)]);
    assert raising.workers - {0} == map[1 := o.workers[1]];
  }

  function FailedAndSelected(cfg: Config): System {
    OneFailed(cfg, Telegram, None).(clock := cfg.timeout + 2, selected := {0})
  }

  lemma FailedIsSelected(cfg: Config)
    requires cfg.taskLimit > cfg.timeout
    ensures Apply(cfg, Apply(cfg, OneFailed(cfg, Telegram, None), Tick(1)), SelectOld(0, 0, cfg.timeout + 2)) ==
      FailedAndSelected(cfg)
  {
    var s := OneFailed(cfg, Telegram, None);
    TickRuns(cfg, s, 1);
    var ticked := s.(clock := s.clock + 1);
    assert Apply(cfg, ticked, SelectOld(0, 0, cfg.timeout + 2)) ==
      ApplyRow(cfg, ticked, SelectOld(0, 0, cfg.timeout + 2));
    assert ticked.selected + {0} == {0};
  }

  lemma OtherDispatches(cfg: Config)
    ensures var s := Apply(cfg, Apply(cfg, FailedAndSelected(cfg), Publish(1)), WriteDelivering(1));
      0 in s.selected && 0 in s.db.rows && s.db.rows[0].status.Delivering?
  {
    var s := FailedAndSelected(cfg);
    var published := s.(workers := map[1 := s.workers[1].(phase := Published)]);
    assert Apply(cfg, s, Publish(1)) == ApplyWorker(cfg, s, Publish(1)) == published;
    assert Apply(cfg, published, WriteDelivering(1)) == ApplyFinal(published, WriteDelivering(1));
  }

  // ---------- one in-flight row per target ----------

  /** The step runs into the partial unique constraint. */
  ghost predicate HitsConstraint(cfg: Config, s: System, step: Step) {
    match step
    case Create(channel, kind, target) => Conflicts(s.db.rows, s.nextId, NewRow(channel, kind, target, s.clock))
    case Begin(w, id, checkedAt) =>
      MayBegin(cfg, s, w, id, checkedAt) && BeginTx(s.db, id, cfg.timeout, checkedAt, s.clock).1.Rejected?
    case WriteFailed(w, error) => w in s.workers && FailTx(s.db, s.workers[w].id, error, s.clock).1.Rejected?
    case WriteDelivering(w) => w in s.workers && DeliverTx(s.db, s.workers[w].id, s.clock).1.Rejected?
    case WriteSent(w) => w in s.workers && SendTx(s.db, s.workers[w].id, s.clock).1.Rejected?
    case Ack(id) => id in s.db.rows && Conflicts(s.db.rows, id, ConfirmTx(s.db, id, s.clock).0.rows[id])
    case Refuse(id, error) =>
      id in s.db.rows && Conflicts(s.db.rows, id, FailDeliveryTx(s.db, id, error, s.clock).0.rows[id])
    case ReapDelivering(id) =>
      id in s.db.rows && Conflicts(s.db.rows, id, FailDeliveryTx(s.db, id, ACK_TIMEOUT, s.clock).0.rows[id])
    case ReapProcessing(id, cutoff) =>
      id in s.db.rows && Conflicts(s.db.rows, id, ReapTx(s.db, id, cutoff, cfg.maxAttempts, s.clock).0.rows[id])
    case _ => false
  }

  /** The database keeps the constraint in every run of every configuration, leased or not. */
  lemma {:induction false} AlwaysOneInFlight(cfg: Config, run: seq<Step>)
    ensures OneInFlightPerTarget(Exec(cfg, run).db.rows)
  {
    if run != [] {
      var s := Exec(cfg, run[..|run| - 1]);
      AlwaysOneInFlight(cfg, run[..|run| - 1]);
      StepKeepsOneInFlight(cfg, s, run[|run| - 1]);
    }
  }

  lemma StepKeepsOneInFlight(cfg: Config, s: System, step: Step)
    requires OneInFlightPerTarget(s.db.rows)
    ensures OneInFlightPerTarget(Apply(cfg, s, step).db.rows)
  {
    var t := Apply(cfg, s, step);
    if OfTask(step) {
      TaskFrame(cfg, s, step);
    } else if t.db.rows != s.db.rows && !step.DeleteOld? {
      var id := if step.Create? then s.nextId else if IsFinalWrite(step) then s.workers[step.w].id else step.id;
      if IsFinalWrite(step) {
        OneFinalWrite(s, step);
      } else if OnRow(step) {
        OneRowWrite(cfg, s, step);
      } else {
        OneOtherWrite(cfg, s, step);
      }
      WriteKeepsOneInFlight(s.db.rows, id, t.db.rows[id]);
    }
  }

  /** One row is written, and not against the constraint. */
  ghost predicate OneWrite(rows: map<Id, Row>, after: map<Id, Row>, id: Id) {
    id in after && after == rows[id := after[id]] && !Conflicts(rows, id, after[id])
  }

  lemma OneFinalWrite(s: System, step: Step)
    requires IsFinalWrite(step) && ApplyFinal(s, step).db.rows != s.db.rows
    ensures step.w in s.workers && OneWrite(s.db.rows, ApplyFinal(s, step).db.rows, s.workers[step.w].id)
  {}

  lemma OneRowWrite(cfg: Config, s: System, step: Step)
    requires OnRow(step) && !step.DeleteOld? && ApplyRow(cfg, s, step).db.rows != s.db.rows &&
      OneInFlightPerTarget(s.db.rows)
    ensures OneWrite(s.db.rows, ApplyRow(cfg, s, step).db.rows, step.id)
  {}

  lemma OneOtherWrite(cfg: Config, s: System, step: Step)
    requires (step.Tick? || step.Create? || step.Begin?) && Apply(cfg, s, step).db.rows != s.db.rows
    requires OneInFlightPerTarget(s.db.rows)
    ensures !step.Tick? && OneWrite(s.db.rows, Apply(cfg, s, step).db.rows, if step.Create? then s.nextId else step.id)
  {}

  /** Another row with the key of this one is in flight. */
  ghost predicate KeyTaken(rows: map<Id, Row>, id: Id, row: Row) {
    exists other :: other in rows && other != id && InFlight(rows[other]) && SameKey(rows[other], row)
  }

  /** Only creating a row or beginning a failed row again runs into the constraint, exactly when the key
      is taken. */
  ghost predicate RejectsOnlyTakenKeys(cfg: Config, s: System, step: Step) {
    HitsConstraint(cfg, s, step) <==>
      || (step.Create? && KeyTaken(s.db.rows, s.nextId, NewRow(step.channel, step.kind, step.target, s.clock)))
      || (step.Begin? && MayBegin(cfg, s, step.w, step.id, step.checkedAt) && step.id in s.db.rows &&
          s.db.rows[step.id].status.Failed? && KeyTaken(s.db.rows, step.id, s.db.rows[step.id]))
  }

  /** In every run only those steps run into the constraint, if and only if a task cannot outlive the
      processing timeout. The constraint itself always holds. */
  lemma ConstraintIff(cfg: Config)
    ensures (forall run, step :: RejectsOnlyTakenKeys(cfg, Exec(cfg, run), step)) <==> cfg.taskLimit <= cfg.timeout
  {
    if cfg.taskLimit <= cfg.timeout {
      forall run, step ensures RejectsOnlyTakenKeys(cfg, Exec(cfg, run), step) {
        ConstraintRejectsOnly(cfg, run, step);
      }
    } else {
      var run := DispatchIsRejected(cfg, Target(1, 1));
      assert !RejectsOnlyTakenKeys(cfg, Exec(cfg, run), WriteDelivering(1));
    }
  }

  /** One of two overlapping attempts fails the row, a new row takes its key, and the other attempt
      cannot write DELIVERING. */
  lemma DispatchIsRejected(cfg: Config, target: Target) returns (run: seq<Step>)
    requires cfg.taskLimit > cfg.timeout
    ensures var s := Exec(cfg, run);
      1 in s.workers && s.workers[1].phase.Published? && HitsConstraint(cfg, s, WriteDelivering(1))
  {
    var overlap := OverlapIsReachable(cfg, Telegram, Some(target));
    var failed := overlap + [Raise(0)] + [WriteFailed(0, "")];
    run := failed + [Create(Telegram, "order", Some(target))] + [Publish(1)];
    ExecSnoc(cfg, overlap, Raise(0));
    ExecSnoc(cfg, overlap + [Raise(0)], WriteFailed(0, ""));
    ExecSnoc(cfg, failed, Create(Telegram, "order", Some(target)));
    ExecSnoc(cfg, failed + [Create(Telegram, "order", Some(target))], Publish(1));
    OneOfTwoFails(cfg, Telegram, Some(target));
    KeyIsTaken(cfg, target);
  }

  lemma KeyIsTaken(cfg: Config, target: Target)
    ensures var created := Apply(cfg, OneFailed(cfg, Telegram, Some(target)), Create(Telegram, "order", Some(target)));
      var s := Apply(cfg, created, Publish(1));
      1 in s.workers && s.workers[1].phase.Published? && HitsConstraint(cfg, s, WriteDelivering(1))
  {
    var s := OneFailed(cfg, Telegram, Some(target));
    var row := NewRow(Telegram, "order", Some(target), s.clock);
    assert !Conflicts(s.db.rows, 1, row);
    var created := s.(db := s.db.(rows := s.db.rows[1 := row]), nextId := 2);
    assert Apply(cfg, s, Create(Telegram, "order", Some(target))) == created;
    assert Apply(cfg, created, Publish(1)) == ApplyWorker(cfg, created, Publish(1));
    assert SameKey(created.db.rows[1], DeliveringRow(created.db.rows[0], s.clock)) && InFlight(created.db.rows[1]);
  }

  lemma {:induction false} ConstraintRejectsOnly(cfg: Config, run: seq<Step>, step: Step)
    requires cfg.taskLimit <= cfg.timeout
    ensures OneInFlightPerTarget(Exec(cfg, run).db.rows)
    ensures RejectsOnlyTakenKeys(cfg, Exec(cfg, run), step)
  {
    ReachableLease(cfg, run);
    AlwaysOneInFlight(cfg, run);
    var s := Exec(cfg, run);
    if IsFinalWrite(step) {
      if step.w in s.workers {
        FinalWritesAreFenced(cfg, run, step.w, if step.WriteFailed? then step.error else "");
      }
    } else if step.Begin? && step.id in s.db.rows {
      var row := s.db.rows[step.id];
      var begun := BegunRow(row, s.clock);
      assert forall other :: other in s.db.rows ==> SameKey(s.db.rows[other], begun) == SameKey(s.db.rows[other], row);
      if !row.status.Failed? && !row.status.Sent? {
        InFlightRowNeverRejected(s.db.rows, step.id, begun);
      }
    } else if step.ReapProcessing? && step.id in s.db.rows {
      InFlightRowNeverRejected(s.db.rows, step.id,
        ReapTx(s.db, step.id, step.cutoff, cfg.maxAttempts, s.clock).0.rows[step.id]);
    } else if (step.Ack? || step.Refuse? || step.ReapDelivering?) && step.id in s.db.rows {
      InFlightRowNeverRejected(s.db.rows, step.id, ConfirmTx(s.db, step.id, s.clock).0.rows[step.id]);
      InFlightRowNeverRejected(s.db.rows, step.id,
        FailDeliveryTx(s.db, step.id, if step.Refuse? then step.error else ACK_TIMEOUT, s.clock).0.rows[step.id]);
    }
  }
}
