/** No second send after a recorded one, for outbox rows whose handler sends one email. */
module OutboxSingleSend {
  import opened Wrappers
  import opened OutboxTables
  import opened OutboxProtocol
  import opened OutboxLease
  import opened OutboxShape

  /** The log a worker is writing has the status of its phase. */
  ghost predicate PhaseMatchesLog(s: System, k: Worker) {
    && (k.phase.Logged? || k.phase.Accepted? ==> k.phase.log < |s.db.logs| && s.db.logs[k.phase.log].status.Queued?)
    && (k.phase.Recorded? ==> k.phase.log < |s.db.logs| && s.db.logs[k.phase.log].status.Sent?)
  }

  /** A recorded send is either settled, or its attempt is the last one: a live worker on the row
      can only be the one that recorded it. */
  ghost predicate SendSettled(s: System, l: nat, id: Id) {
    && id in s.db.rows
    && (s.db.rows[id].status.Sent? || s.db.rows[id].status.Processing?)
    && (forall w :: w in s.workers && s.workers[w].id == id ==> s.workers[w].phase == Recorded(l))
  }

  ghost predicate Recording(s: System) {
    && (forall w :: w in s.workers ==> PhaseMatchesLog(s, s.workers[w]))
    && (forall l, id :: 0 <= l < |s.db.logs| && SentLogOf(s.db.logs[l], id) ==> SendSettled(s, l, id))
    && SingleSend(s)
  }

  lemma SendSettledAt(s: System, l: nat, id: Id)
    requires Recording(s) && l < |s.db.logs| && SentLogOf(s.db.logs[l], id)
    ensures SendSettled(s, l, id)
  {}

  /** Steps that leave tables and tasks alone. */
  lemma NoteKeepsRecording(s: System, t: System)
    requires Recording(s) && t == s.(clock := t.clock, acked := t.acked, selected := t.selected)
    ensures Recording(t)
  {
    assert forall w :: w in t.workers ==> PhaseMatchesLog(s, s.workers[w]);
    forall l, i | 0 <= l < |t.db.logs| && SentLogOf(t.db.logs[l], i) ensures SendSettled(t, l, i) {
      SendSettledAt(s, l, i);
    }
  }

  lemma NewRowKeepsRecording(s: System, id: Id, row: Row)
    requires Recording(s) && id !in s.db.rows
    ensures Recording(s.(db := s.db.(rows := s.db.rows[id := row]), nextId := s.nextId + 1))
  {
    var t := s.(db := s.db.(rows := s.db.rows[id := row]), nextId := s.nextId + 1);
    assert forall w :: w in t.workers ==> PhaseMatchesLog(s, s.workers[w]);
    forall l, i | 0 <= l < |t.db.logs| && SentLogOf(t.db.logs[l], i) ensures SendSettled(t, l, i) {
      SendSettledAt(s, l, i);
    }
  }

  lemma QuietStepKeepsRecording(cfg: Config, s: System, step: Step)
    requires Lease(cfg, s) && Recording(s) && (step.Tick? || step.Create?)
    ensures Recording(Apply(cfg, s, step))
  {
    var t := Apply(cfg, s, step);
    if step.Tick? {
      NoteKeepsRecording(s, t);
    } else if t != s {
      assert s.nextId !in s.db.rows by { assert s.nextId in s.db.rows ==> RowOk(s, s.nextId, s.db.rows[s.nextId]); }
      NewRowKeepsRecording(s, s.nextId, t.db.rows[s.nextId]);
    }
  }

  lemma NewAttemptKeepsRecording(s: System, w: nat, k: Worker, row: Row)
    requires Recording(s) && w !in s.workers && k.phase.Started? && LatestSentLog(s.db.logs, k.id).None?
    ensures Recording(s.(db := s.db.(rows := s.db.rows[k.id := row]), workers := s.workers[w := k]))
  {
    var t := s.(db := s.db.(rows := s.db.rows[k.id := row]), workers := s.workers[w := k]);
    forall v | v in t.workers ensures PhaseMatchesLog(t, t.workers[v]) {
      assert v in s.workers ==> PhaseMatchesLog(s, s.workers[v]);
    }
    forall l, i | 0 <= l < |t.db.logs| && SentLogOf(t.db.logs[l], i) ensures SendSettled(t, l, i) {
      SendSettledAt(s, l, i);
    }
  }

  /** A row that can be begun has no recorded send. */
  lemma BegunHasNoSend(cfg: Config, s: System, id: Id, checkedAt: nat)
    requires Recording(s) && BeginTx(s.db, id, cfg.timeout, checkedAt, s.clock).1.Begun?
    ensures LatestSentLog(s.db.logs, id).None?
  {
    var sent := LatestSentLog(s.db.logs, id);
    if sent.Some? { SendSettledAt(s, sent.value, id); }
  }

  lemma BeginKeepsRecording(cfg: Config, s: System, step: Step)
    requires cfg.taskLimit <= cfg.timeout && Lease(cfg, s) && Recording(s) && step.Begin?
    ensures Recording(Apply(cfg, s, step))
  {
    var t := Apply(cfg, s, step);
    var id := step.id;
    if t != s {
      forall w | w in s.workers ensures s.workers[w].id != id {
        LiveIsNotStale(cfg, s, w, step.checkedAt);
      }
      if BeginTx(s.db, id, cfg.timeout, step.checkedAt, s.clock).1.Begun? {
        BegunHasNoSend(cfg, s, id, step.checkedAt);
        NewAttemptKeepsRecording(s, step.w, t.workers[step.w], t.db.rows[id]);
      } else {
        RowWriteKeepsRecording(s, t, id);
      }
    }
  }

  /** A task moves on or dies, other tasks do not. */
  ghost predicate TaskMoved(s: System, t: System, w: nat) {
    && w in s.workers && t == s.(db := t.db, workers := t.workers) && t.db.rows == s.db.rows
    && t.workers.Keys <= s.workers.Keys
    && (forall v :: v in s.workers && v != w ==> v in t.workers && t.workers[v] == s.workers[v])
    && (w in t.workers ==> t.workers[w].id == s.workers[w].id && PhaseMatchesLog(t, t.workers[w]))
    && (w in t.workers && s.workers[w].phase.Recorded? ==> t == s)
  }

  /** No log but its own is changed, and none is sent. */
  ghost predicate OwnLogMoved(s: System, t: System, k: Worker) {
    && |s.db.logs| <= |t.db.logs|
    && (forall l, id :: 0 <= l < |t.db.logs| && SentLogOf(t.db.logs[l], id) ==>
      l < |s.db.logs| && SentLogOf(s.db.logs[l], id))
    && (forall l :: 0 <= l < |s.db.logs| && !(HasLog(k.phase) && l == k.phase.log) ==> t.db.logs[l] == s.db.logs[l])
  }

  lemma TaskStepMoves(cfg: Config, s: System, step: Step)
    requires OfTask(step) && !step.RecordSent? && !cfg.lateRaise
    requires step.w in s.workers && PhaseMatchesLog(s, s.workers[step.w])
    ensures TaskMoved(s, ApplyWorker(cfg, s, step), step.w)
  {}

  lemma TaskStepMovesLog(cfg: Config, s: System, step: Step)
    requires OfTask(step) && !step.RecordSent? && step.w in s.workers
    ensures OwnLogMoved(s, ApplyWorker(cfg, s, step), s.workers[step.w])
  {}

  lemma TaskMoveKeepsRecording(cfg: Config, s: System, t: System, w: nat)
    requires Lease(cfg, s) && Recording(s) && TaskMoved(s, t, w) && OwnLogMoved(s, t, s.workers[w])
    ensures Recording(t)
  {
    forall v | v in t.workers ensures PhaseMatchesLog(t, t.workers[v]) {
      assert WorkerOk(cfg, s, s.workers[v]) && PhaseMatchesLog(s, s.workers[v]);
      assert v != w ==> Apart(s.workers[v], s.workers[w]);
    }
    forall l, id | 0 <= l < |t.db.logs| && SentLogOf(t.db.logs[l], id) ensures SendSettled(t, l, id) {
      SendSettledAt(s, l, id);
    }
  }

  lemma WorkerStepKeepsRecording(cfg: Config, s: System, step: Step)
    requires Lease(cfg, s) && Recording(s) && !cfg.lateRaise
    requires OfTask(step) && !step.RecordSent?
    ensures Recording(Apply(cfg, s, step))
  {
    var t := ApplyWorker(cfg, s, step);
    assert Apply(cfg, s, step) == t;
    if step.w in s.workers {
      TaskStepMoves(cfg, s, step);
      TaskStepMovesLog(cfg, s, step);
      TaskMoveKeepsRecording(cfg, s, t, step.w);
    }
  }

  /** Recording a send is only possible when the row has none. */
  lemma RecordSentKeepsRecording(cfg: Config, s: System, step: Step)
    requires Lease(cfg, s) && Recording(s) && step.RecordSent?
    ensures Recording(Apply(cfg, s, step))
  {
    var t := Apply(cfg, s, step);
    if t != s {
      var k := s.workers[step.w];
      assert WorkerOk(cfg, s, k) && PhaseMatchesLog(s, k);
      forall w | w in t.workers ensures PhaseMatchesLog(t, t.workers[w]) {
        assert WorkerOk(cfg, s, s.workers[w]) && PhaseMatchesLog(s, s.workers[w]);
        assert w != step.w ==> Apart(s.workers[w], k);
      }
      forall l | 0 <= l < |s.db.logs| ensures !SentLogOf(s.db.logs[l], k.id) {
        if SentLogOf(s.db.logs[l], k.id) { SendSettledAt(s, l, k.id); }
      }
      forall l, id | 0 <= l < |t.db.logs| && SentLogOf(t.db.logs[l], id) ensures SendSettled(t, l, id) {
        if l != k.phase.log { SendSettledAt(s, l, id); }
      }
    }
  }

  /** A task ends and writes its row. */
  ghost predicate TaskEnded(s: System, t: System, w: nat) {
    && w in s.workers && t == Gone(s, w).(db := s.db.(rows := t.db.rows))
    && t.db.rows.Keys == s.db.rows.Keys
    && (forall id :: id in s.db.rows && id != s.workers[w].id ==> t.db.rows[id] == s.db.rows[id])
  }

  lemma TaskEndKeepsRecording(s: System, t: System, w: nat)
    requires Recording(s) && TaskEnded(s, t, w)
    requires var id := s.workers[w].id; id in t.db.rows && LatestSentLog(s.db.logs, id).Some? ==>
      t.db.rows[id].status.Sent? || t.db.rows[id].status.Processing?
    ensures Recording(t)
  {
    forall v | v in t.workers ensures PhaseMatchesLog(t, t.workers[v]) {
      assert PhaseMatchesLog(s, s.workers[v]);
    }
    forall l, id | 0 <= l < |t.db.logs| && SentLogOf(t.db.logs[l], id) ensures SendSettled(t, l, id) {
      SendSettledAt(s, l, id);
    }
  }

  lemma FinalStepEnds(s: System, step: Step)
    requires IsFinalWrite(step) && ApplyFinal(s, step) != s
    ensures TaskEnded(s, ApplyFinal(s, step), step.w)
  {}

  /** The final write of a task with a recorded send is the SENT write. */
  lemma RecordedWritesSent(cfg: Config, s: System, step: Step)
    requires Lease(cfg, s) && Recording(s) && IsFinalWrite(step) && ApplyFinal(s, step) != s
    requires var id := s.workers[step.w].id; id in s.db.rows && LatestSentLog(s.db.logs, id).Some?
    ensures var rows := ApplyFinal(s, step).db.rows; var id := s.workers[step.w].id;
      id in rows ==> rows[id].status.Sent? || rows[id].status.Processing?
  {
    var id := s.workers[step.w].id;
    SendSettledAt(s, LatestSentLog(s.db.logs, id).value, id);
    assert WorkerOk(cfg, s, s.workers[step.w]);
  }

  lemma FinalStepKeepsRecording(cfg: Config, s: System, step: Step)
    requires Lease(cfg, s) && Recording(s) && IsFinalWrite(step)
    ensures Recording(Apply(cfg, s, step))
  {
    var t := ApplyFinal(s, step);
    assert Apply(cfg, s, step) == t;
    if t != s {
      var id := s.workers[step.w].id;
      FinalStepEnds(s, step);
      if id in s.db.rows && LatestSentLog(s.db.logs, id).Some? { RecordedWritesSent(cfg, s, step); }
      TaskEndKeepsRecording(s, t, step.w);
    }
  }

  lemma RowWriteKeepsRecording(s: System, t: System, id: Id)
    requires Recording(s) && RowWritten(s, t, id)
    requires s.db.rows[id].status.Sent? || s.db.rows[id].status.Processing? ==>
      t.db.rows[id].status.Sent? || LatestSentLog(s.db.logs, id).None?
    ensures Recording(t)
  {
    forall w | w in t.workers ensures PhaseMatchesLog(t, t.workers[w]) {
      assert PhaseMatchesLog(s, s.workers[w]);
    }
    forall l, i | 0 <= l < |t.db.logs| && SentLogOf(t.db.logs[l], i) ensures SendSettled(t, l, i) {
      SendSettledAt(s, l, i);
    }
  }

  lemma DeleteKeepsRecording(s: System, id: Id)
    requires Recording(s)
    ensures Recording(s.(db := DeleteTx(s.db, id), selected := s.selected - {id}))
  {
    var t := s.(db := DeleteTx(s.db, id), selected := s.selected - {id});
    forall w | w in t.workers ensures PhaseMatchesLog(t, t.workers[w]) {
      assert PhaseMatchesLog(s, s.workers[w]);
    }
    assert forall l, i :: 0 <= l < |t.db.logs| && SentLogOf(t.db.logs[l], i) ==> SentLogOf(s.db.logs[l], i) && i != id;
    forall l, i | 0 <= l < |t.db.logs| && SentLogOf(t.db.logs[l], i) ensures SendSettled(t, l, i) {
      SendSettledAt(s, l, i);
    }
  }

  lemma RowStepKeepsRecording(cfg: Config, s: System, step: Step)
    requires cfg.taskLimit <= cfg.timeout && Lease(cfg, s) && Recording(s)
    requires OnRow(step)
    ensures Recording(Apply(cfg, s, step))
  {
    var t := ApplyRow(cfg, s, step);
    assert Apply(cfg, s, step) == t;
    if step.DeleteOld? {
      if step.id in s.selected { DeleteKeepsRecording(s, step.id); }
    } else if t.db == s.db {
      NoteKeepsRecording(s, t);
    } else {
      RowStepWrites(cfg, s, step);
      RowWriteKeepsRecording(s, t, step.id);
    }
  }

  lemma StepKeepsRecording(cfg: Config, s: System, step: Step)
    requires cfg.taskLimit <= cfg.timeout && !cfg.lateRaise && Lease(cfg, s) && Recording(s)
    ensures Recording(Apply(cfg, s, step))
  {
    if step.RecordSent? {
      RecordSentKeepsRecording(cfg, s, step);
    } else if OfTask(step) {
      WorkerStepKeepsRecording(cfg, s, step);
    } else if IsFinalWrite(step) {
      FinalStepKeepsRecording(cfg, s, step);
    } else if OnRow(step) {
      RowStepKeepsRecording(cfg, s, step);
    } else if step.Begin? {
      BeginKeepsRecording(cfg, s, step);
    } else {
      QuietStepKeepsRecording(cfg, s, step);
    }
  }

  lemma {:induction false} ReachableRecording(cfg: Config, run: seq<Step>)
    requires cfg.taskLimit <= cfg.timeout && !cfg.lateRaise
    ensures Recording(Exec(cfg, run))
  {
    if run != [] {
      ReachableRecording(cfg, run[..|run| - 1]);
      ReachableLease(cfg, run[..|run| - 1]);
      StepKeepsRecording(cfg, Exec(cfg, run[..|run| - 1]), run[|run| - 1]);
    }
  }

  /** The row is sent or processing; it stays as it is, becomes SENT without another attempt, or is deleted. */
  ghost predicate SendIsFinal(s: System, t: System, id: Id) {
    && id in s.db.rows && (s.db.rows[id].status.Sent? || s.db.rows[id].status.Processing?)
    && (id in t.db.rows && t.db.rows[id] != s.db.rows[id] ==>
      t.db.rows[id].status.Sent? && t.db.rows[id].attempts == s.db.rows[id].attempts)
  }

  /** Once a send is recorded no attempt ever begins on the row again and no step fails it: all that
      can still happen is the write or the reconciliation of SENT. */
  lemma {:induction false} RecordedSendIsFinal(cfg: Config, run: seq<Step>, l: nat, id: Id, step: Step)
    requires cfg.taskLimit <= cfg.timeout && !cfg.lateRaise
    requires l < |Exec(cfg, run).db.logs| && SentLogOf(Exec(cfg, run).db.logs[l], id)
    ensures SendIsFinal(Exec(cfg, run), Apply(cfg, Exec(cfg, run), step), id)
  {
    ReachableRecording(cfg, run);
    ReachableLease(cfg, run);
    StepKeepsSend(cfg, Exec(cfg, run), step, l, id);
  }

  lemma StepKeepsSend(cfg: Config, s: System, step: Step, l: nat, id: Id)
    requires Lease(cfg, s) && Recording(s) && l < |s.db.logs| && SentLogOf(s.db.logs[l], id)
    ensures SendIsFinal(s, Apply(cfg, s, step), id)
  {
    SendSettledAt(s, l, id);
    StepIsLegal(cfg, s, step, id);
    if IsFinalWrite(step) {
      FinalStepKeepsSend(cfg, s, step, l, id);
    } else if OnRow(step) {
      RowStepKeepsSend(cfg, s, step, l, id);
    } else if OfTask(step) {
      TaskFrame(cfg, s, step);
    } else {
      assert LatestSentLog(s.db.logs, id).Some?;
    }
  }

  lemma FinalStepKeepsSend(cfg: Config, s: System, step: Step, l: nat, id: Id)
    requires Lease(cfg, s) && Recording(s) && l < |s.db.logs| && SentLogOf(s.db.logs[l], id) && IsFinalWrite(step)
    requires LegalChange(cfg, s, Apply(cfg, s, step), id)
    ensures SendIsFinal(s, Apply(cfg, s, step), id)
  {
    var t := ApplyFinal(s, step);
    assert Apply(cfg, s, step) == t;
    SendSettledAt(s, l, id);
    FinalFrame(s, step);
    if t != s {
      FinalStepEnds(s, step);
      if s.workers[step.w].id == id {
        assert LatestSentLog(s.db.logs, id).Some?;
        RecordedWritesSent(cfg, s, step);
      }
    }
  }

  lemma RowStepKeepsSend(cfg: Config, s: System, step: Step, l: nat, id: Id)
    requires Lease(cfg, s) && Recording(s) && l < |s.db.logs| && SentLogOf(s.db.logs[l], id) && OnRow(step)
    ensures SendIsFinal(s, Apply(cfg, s, step), id)
  {
    assert Apply(cfg, s, step) == ApplyRow(cfg, s, step);
    SendSettledAt(s, l, id);
    assert LatestSentLog(s.db.logs, id).Some?;
  }

  /** The step sets the row to SENT with the time of its latest recorded send, and changes nothing else. */
  ghost predicate SetsSent(cfg: Config, s: System, id: Id, step: Step)
    requires id in s.db.rows
  {
    var t := Apply(cfg, s, step);
    && id in t.db.rows && t == s.(db := s.db.(rows := s.db.rows[id := t.db.rows[id]]))
    && Reconciliation(s.db.logs, id, s.db.rows[id], t.db.rows[id], s.clock)
  }

  /** No task is left on the row, and the reaper as well as a redelivered task set it to SENT. */
  ghost predicate Recovers(cfg: Config, s: System, id: Id, w: nat)
    requires id in s.db.rows
  {
    && (forall v :: v in s.workers ==> s.workers[v].id != id)
    && SetsSent(cfg, s, id, ReapProcessing(id, s.clock - cfg.timeout))
    && (w !in s.workers ==> SetsSent(cfg, s, id, Begin(w, id, s.clock)))
  }

  /** The row has a recorded send, but is still processing and stale. */
  ghost predicate StaleSend(cfg: Config, s: System, id: Id) {
    && id in s.db.rows && s.db.rows[id].status.Processing?
    && (exists l :: 0 <= l < |s.db.logs| && SentLogOf(s.db.logs[l], id))
    && s.db.rows[id].lastAttemptAt.Some? && s.db.rows[id].lastAttemptAt.value + cfg.timeout < s.clock
  }

  /** A recorded send whose task died is recovered once the row is stale. */
  lemma {:induction false} RecordedSendIsRecovered(cfg: Config, run: seq<Step>, id: Id, w: nat)
    requires cfg.taskLimit <= cfg.timeout && StaleSend(cfg, Exec(cfg, run), id)
    ensures Recovers(cfg, Exec(cfg, run), id, w)
  {
    ReachableLease(cfg, run);
    StaleSendRecovers(cfg, Exec(cfg, run), id, w);
  }

  lemma StaleSendRecovers(cfg: Config, s: System, id: Id, w: nat)
    requires cfg.taskLimit <= cfg.timeout && Lease(cfg, s) && StaleSend(cfg, s, id)
    ensures Recovers(cfg, s, id, w)
  {
    forall v | v in s.workers ensures s.workers[v].id != id {
      assert WorkerOk(cfg, s, s.workers[v]);
    }
    assert id in s.selected ==> SelectedRowOk(cfg, s, id);
    ReapSetsSent(cfg, s, id);
    if w !in s.workers { BeginSetsSent(cfg, s, id, w); }
  }

  lemma ReapSetsSent(cfg: Config, s: System, id: Id)
    requires StaleSend(cfg, s, id)
    ensures SetsSent(cfg, s, id, ReapProcessing(id, s.clock - cfg.timeout))
  {
    var step := ReapProcessing(id, s.clock - cfg.timeout);
    assert Apply(cfg, s, step) == ApplyRow(cfg, s, step);
    ReconciledFromLatest(s.db.logs, id, s.db.rows[id], s.clock);
  }

  lemma BeginSetsSent(cfg: Config, s: System, id: Id, w: nat)
    requires StaleSend(cfg, s, id) && MayBegin(cfg, s, w, id, s.clock)
    ensures SetsSent(cfg, s, id, Begin(w, id, s.clock))
  {
    BeginRuns(cfg, s, w, id, s.clock);
    ReconciledFromLatest(s.db.logs, id, s.db.rows[id], s.clock);
  }

  // ---------- the exact condition ----------

  /** Both of two overlapping attempts record a send. */
  lemma OverlapSendsTwice(cfg: Config) returns (run: seq<Step>)
    requires cfg.taskLimit > cfg.timeout
    ensures !SingleSend(Exec(cfg, run))
  {
    var r0 := OverlapIsReachable(cfg, Email, None);
    var s1 := SendEmail(cfg, r0, 0);
    var r1 := r0 + [CreateLog(0, ""), SmtpAccept(0), RecordSent(0)];
    var s2 := SendEmail(cfg, r1, 1);
    run := r1 + [CreateLog(1, ""), SmtpAccept(1), RecordSent(1)];
    assert SentLogOf(s2.db.logs[0], 0) && SentLogOf(s2.db.logs[1], 0);
  }

  /** A started email attempt sends and records the send. */
  lemma SendEmail(cfg: Config, run: seq<Step>, w: nat) returns (t: System)
    requires var s := Exec(cfg, run); w in s.workers && s.workers[w].channel.Email? && s.workers[w].phase.Started?
    requires var s := Exec(cfg, run); s.workers[w].id in s.db.rows
    ensures t == Exec(cfg, run + [CreateLog(w, ""), SmtpAccept(w), RecordSent(w)])
    ensures var s := Exec(cfg, run); var k := s.workers[w];
      t == s.(db := Tables(s.db.rows, s.db.logs + [EmailLog(Some(k.id), "", LogStatus.Sent, Some(s.clock))]),
              workers := s.workers[w := k.(phase := Recorded(|s.db.logs|))])
  {
    var s := Exec(cfg, run);
    var k := s.workers[w];
    var n := |s.db.logs|;
    ExecSnoc(cfg, run, CreateLog(w, ""));
    var logged := Apply(cfg, s, CreateLog(w, ""));
    ExecSnoc(cfg, run + [CreateLog(w, "")], SmtpAccept(w));
    var accepted := Apply(cfg, logged, SmtpAccept(w));
    assert accepted.workers == s.workers[w := k.(phase := Accepted(n))];
    ExecSnoc(cfg, run + [CreateLog(w, "")] + [SmtpAccept(w)], RecordSent(w));
    t := Apply(cfg, accepted, RecordSent(w));
    assert run + [CreateLog(w, ""), SmtpAccept(w), RecordSent(w)] ==
      run + [CreateLog(w, "")] + [SmtpAccept(w)] + [RecordSent(w)];
    assert t.workers == s.workers[w := k.(phase := Recorded(n))];
    assert t.db.logs == s.db.logs + [EmailLog(Some(k.id), "", LogStatus.Sent, Some(s.clock))];
  }

  /** The first attempt has recorded its send and yet failed the row. */
  function FailedAfterSend(): System {
    System(0, Tables(map[0 := FailedRow(BegunRow(NewRow(Email, "order", None, 0), 0), "", 0)],
                     [EmailLog(Some(0), "", LogStatus.Sent, Some(0))]), map[], 1, {}, {})
  }

  lemma RecordedThenFailed(cfg: Config) returns (run: seq<Step>)
    requires cfg.lateRaise
    ensures Exec(cfg, run) == FailedAfterSend()
  {
    var begun := FirstAttempt(cfg, Email, None);
    var s := SendEmail(cfg, begun, 0);
    var sent := begun + [CreateLog(0, ""), SmtpAccept(0), RecordSent(0)];
    run := sent + [Raise(0)] + [WriteFailed(0, "")];
    ExecSnoc(cfg, sent, Raise(0));
    ExecSnoc(cfg, sent + [Raise(0)], WriteFailed(0, ""));
    assert Apply(cfg, s, Raise(0)) == s.(workers := map[0 := Worker(0, Email, 0, Raising)]);
  }

  /** An exception after the recorded send fails the row, and its retry sends again. */
  lemma LateRaiseSendsTwice(cfg: Config) returns (run: seq<Step>)
    requires cfg.lateRaise
    ensures !SingleSend(Exec(cfg, run))
  {
    var failed := RecordedThenFailed(cfg);
    ExecSnoc(cfg, failed, Begin(0, 0, 0));
    var s := SendEmail(cfg, failed + [Begin(0, 0, 0)], 0);
    run := failed + [Begin(0, 0, 0)] + [CreateLog(0, ""), SmtpAccept(0), RecordSent(0)];
    assert SentLogOf(s.db.logs[0], 0) && SentLogOf(s.db.logs[1], 0);
  }

  /** No run records two sends for one outbox row, if and only if a task cannot outlive the
      processing timeout and no exception reaches the failure handler after a recorded send. */
  lemma SingleSendIff(cfg: Config)
    ensures (forall run :: SingleSend(Exec(cfg, run))) <==> cfg.taskLimit <= cfg.timeout && !cfg.lateRaise
  {
    if cfg.taskLimit <= cfg.timeout && !cfg.lateRaise {
      forall run ensures SingleSend(Exec(cfg, run)) {
        ReachableRecording(cfg, run);
      }
    } else if cfg.lateRaise {
      var run := LateRaiseSendsTwice(cfg);
    } else {
      var run := OverlapSendsTwice(cfg);
    }
  }

  /** Every recorded send is final at every step. */
  ghost predicate AllFinal(s: System, t: System) {
    forall l, id :: 0 <= l < |s.db.logs| && SentLogOf(s.db.logs[l], id) ==> SendIsFinal(s, t, id)
  }

  /** A recorded send stays final in every run under exactly the condition of single sends. */
  lemma SendIsFinalIff(cfg: Config)
    ensures (forall run, step :: AllFinal(Exec(cfg, run), Apply(cfg, Exec(cfg, run), step))) <==>
      cfg.taskLimit <= cfg.timeout && !cfg.lateRaise
  {
    if cfg.lateRaise {
      var run := RecordedThenFailed(cfg);
      var s := Exec(cfg, run);
      assert SentLogOf(s.db.logs[0], 0) && !SendIsFinal(s, Apply(cfg, s, Tick(0)), 0);
      assert !AllFinal(s, Apply(cfg, s, Tick(0)));
    } else if cfg.taskLimit > cfg.timeout {
      var run := SentWhileOtherRaises(cfg);
      assert !AllFinal(Exec(cfg, run), Apply(cfg, Exec(cfg, run), WriteFailed(1, "")));
    } else {
      forall run, step ensures AllFinal(Exec(cfg, run), Apply(cfg, Exec(cfg, run), step)) {
        forall l, id | 0 <= l < |Exec(cfg, run).db.logs| && SentLogOf(Exec(cfg, run).db.logs[l], id)
          ensures SendIsFinal(Exec(cfg, run), Apply(cfg, Exec(cfg, run), step), id) {
          RecordedSendIsFinal(cfg, run, l, id, step);
        }
      }
    }
  }

  /** One of two overlapping attempts has recorded its send, the other is about to fail the row. */
  lemma SentWhileOtherRaises(cfg: Config) returns (run: seq<Step>)
    requires cfg.taskLimit > cfg.timeout
    ensures !AllFinal(Exec(cfg, run), Apply(cfg, Exec(cfg, run), WriteFailed(1, "")))
  {
    var overlap := OverlapIsReachable(cfg, Email, None);
    var sent := SendEmail(cfg, overlap, 0);
    run := overlap + [CreateLog(0, ""), SmtpAccept(0), RecordSent(0)] + [Raise(1)];
    ExecSnoc(cfg, overlap + [CreateLog(0, ""), SmtpAccept(0), RecordSent(0)], Raise(1));
    var s := Apply(cfg, sent, Raise(1));
    assert s == sent.(workers := sent.workers[1 := sent.workers[1].(phase := Raising)]);
    assert SentLogOf(s.db.logs[0], 0);
    FailsRecorded(cfg, s);
  }

  lemma FailsRecorded(cfg: Config, s: System)
    requires 0 in s.db.rows && s.db.rows[0].status.Processing? && 1 in s.workers
    requires s.workers[1].phase.Raising? && s.workers[1].id == 0
    ensures !SendIsFinal(s, Apply(cfg, s, WriteFailed(1, "")), 0)
  {
    assert Apply(cfg, s, WriteFailed(1, "")) == ApplyFinal(s, WriteFailed(1, ""));
    assert !Conflicts(s.db.rows, 0, FailedRow(s.db.rows[0], Truncated(""), s.clock));
  }

  /** Stale recorded sends are recovered, and by then no task is left on their rows, if and only if a
      task cannot outlive the processing timeout. */
  lemma RecoveryIff(cfg: Config)
    ensures (forall run, id, w :: StaleSend(cfg, Exec(cfg, run), id) ==> Recovers(cfg, Exec(cfg, run), id, w)) <==>
      cfg.taskLimit <= cfg.timeout
  {
    if cfg.taskLimit <= cfg.timeout {
      forall run, id, w | StaleSend(cfg, Exec(cfg, run), id) ensures Recovers(cfg, Exec(cfg, run), id, w) {
        RecordedSendIsRecovered(cfg, run, id, w);
      }
    } else {
      var run := StaleUnderTask(cfg);
      assert !Recovers(cfg, Exec(cfg, run), 0, 1);
    }
  }

  /** The task that has recorded its send is still live when its row turns stale. */
  lemma StaleUnderTask(cfg: Config) returns (run: seq<Step>)
    requires cfg.taskLimit > cfg.timeout
    ensures var s := Exec(cfg, run); StaleSend(cfg, s, 0) && 0 in s.workers && s.workers[0].id == 0
  {
    var first := FirstAttempt(cfg, Email, None);
    var sent := SendEmail(cfg, first, 0);
    var recorded := first + [CreateLog(0, ""), SmtpAccept(0), RecordSent(0)];
    run := recorded + [Tick(cfg.timeout + 1)];
    ExecSnoc(cfg, recorded, Tick(cfg.timeout + 1));
    TickRuns(cfg, sent, cfg.timeout + 1);
    assert SentLogOf(sent.db.logs[0], 0);
  }
}
