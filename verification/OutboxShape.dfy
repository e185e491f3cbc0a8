/** What is true of rows, tasks and email logs in every run of every configuration, whether or not a task
    can outlive the processing timeout. */
module OutboxShape {
  import opened Wrappers
  import opened OutboxTables
  import opened OutboxProtocol

  predicate HasLog(phase: Phase) {
    phase.Logged? || phase.Accepted? || phase.Recorded?
  }

  /** Pending rows are exactly those never begun, and only Telegram rows are delivering. */
  ghost predicate RowShape(s: System, id: Id, row: Row) {
    && id < s.nextId
    && (row.attempts == 0 <==> row.status.Pending?)
    && (row.attempts == 0 <==> row.lastAttemptAt.None?)
    && (row.status.Delivering? ==> row.channel.Telegram?)
  }

  /** A task works on the channel of its row, which has been begun. */
  ghost predicate WorkerShape(s: System, k: Worker) {
    && k.id < s.nextId
    && (k.id in s.db.rows ==> s.db.rows[k.id].channel == k.channel && !s.db.rows[k.id].status.Pending?)
    && (k.phase.Published? ==> k.channel.Telegram?)
    && (HasLog(k.phase) ==> k.channel.Email?)
  }

  /** Logs refer to existing email rows. */
  ghost predicate LogsOk(s: System) {
    forall l :: 0 <= l < |s.db.logs| && s.db.logs[l].outbox.Some? ==>
      s.db.logs[l].outbox.value in s.db.rows && s.db.rows[s.db.logs[l].outbox.value].channel.Email?
  }

  ghost predicate Shape(s: System) {
    && (forall id :: id in s.db.rows ==> RowShape(s, id, s.db.rows[id]))
    && (forall w :: w in s.workers ==> WorkerShape(s, s.workers[w]))
    && LogsOk(s)
  }

  /** A row is written; whoever works on it still works on its channel. */
  ghost predicate RowRewritten(s: System, t: System, id: Id) {
    && id in s.db.rows && id in t.db.rows
    && t.nextId == s.nextId && t.db == s.db.(rows := s.db.rows[id := t.db.rows[id]])
    && t.db.rows[id].channel == s.db.rows[id].channel
    && RowShape(t, id, t.db.rows[id]) && (t.db.rows[id].status.Pending? ==> s.db.rows[id].status.Pending?)
    && (forall w :: w in t.workers ==> w in s.workers && t.workers[w] == s.workers[w])
  }

  lemma RewriteKeepsShape(s: System, t: System, id: Id)
    requires Shape(s) && RowRewritten(s, t, id)
    ensures Shape(t)
  {
    forall i | i in t.db.rows ensures RowShape(t, i, t.db.rows[i]) {
      assert RowShape(s, i, s.db.rows[i]);
    }
    forall w | w in t.workers ensures WorkerShape(t, t.workers[w]) {
      assert WorkerShape(s, s.workers[w]);
    }
  }

  lemma FewerTasksKeepShape(s: System, t: System)
    requires Shape(s) && t.db == s.db && t.nextId == s.nextId
    requires forall w :: w in t.workers ==> w in s.workers && t.workers[w] == s.workers[w]
    ensures Shape(t)
  {
    forall i | i in t.db.rows ensures RowShape(t, i, t.db.rows[i]) {
      assert RowShape(s, i, s.db.rows[i]);
    }
    forall w | w in t.workers ensures WorkerShape(t, t.workers[w]) {
      assert WorkerShape(s, s.workers[w]);
    }
  }

  lemma NewRowKeepsShape(s: System, row: Row)
    requires Shape(s) && row.status.Pending? && row.attempts == 0 && row.lastAttemptAt.None?
    ensures Shape(s.(db := s.db.(rows := s.db.rows[s.nextId := row]), nextId := s.nextId + 1))
  {
    var t := s.(db := s.db.(rows := s.db.rows[s.nextId := row]), nextId := s.nextId + 1);
    forall i | i in t.db.rows ensures RowShape(t, i, t.db.rows[i]) {
      assert i in s.db.rows ==> RowShape(s, i, s.db.rows[i]);
    }
    forall w | w in t.workers ensures WorkerShape(t, t.workers[w]) {
      assert WorkerShape(s, s.workers[w]);
    }
    assert s.nextId in s.db.rows ==> RowShape(s, s.nextId, s.db.rows[s.nextId]);
  }

  lemma DeleteKeepsShape(s: System, id: Id)
    requires Shape(s)
    ensures Shape(s.(db := DeleteTx(s.db, id), selected := s.selected - {id}))
  {
    var t := s.(db := DeleteTx(s.db, id), selected := s.selected - {id});
    forall i | i in t.db.rows ensures RowShape(t, i, t.db.rows[i]) {
      assert RowShape(s, i, s.db.rows[i]);
    }
    forall w | w in t.workers ensures WorkerShape(t, t.workers[w]) {
      assert WorkerShape(s, s.workers[w]);
    }
  }

  lemma BeginKeepsShape(cfg: Config, s: System, step: Step)
    requires Shape(s) && step.Begin?
    ensures Shape(Apply(cfg, s, step))
  {
    if MayBegin(cfg, s, step.w, step.id, step.checkedAt) {
      BeginRuns(cfg, s, step.w, step.id, step.checkedAt);
      var (db, result) := BeginTx(s.db, step.id, cfg.timeout, step.checkedAt, s.clock);
      var written := s.(db := db);
      if db == s.db {
        FewerTasksKeepShape(s, written);
      } else {
        assert RowShape(s, step.id, s.db.rows[step.id]);
        RewriteKeepsShape(s, written, step.id);
      }
      if result.Begun? { NewTaskKeepsShape(written, step.w, step.id, s.clock); }
    }
  }

  lemma NewTaskKeepsShape(s: System, w: nat, id: Id, startedAt: nat)
    requires Shape(s) && id in s.db.rows && !s.db.rows[id].status.Pending?
    ensures Shape(s.(workers := s.workers[w := Worker(id, s.db.rows[id].channel, startedAt, Started)]))
  {
    var t := s.(workers := s.workers[w := Worker(id, s.db.rows[id].channel, startedAt, Started)]);
    assert RowShape(s, id, s.db.rows[id]);
    forall i | i in t.db.rows ensures RowShape(t, i, t.db.rows[i]) {
      assert RowShape(s, i, s.db.rows[i]);
    }
    forall v | v in t.workers ensures WorkerShape(t, t.workers[v]) {
      assert v in s.workers ==> WorkerShape(s, s.workers[v]);
    }
  }

  /** A task moves on, having added a log of its row or changed the status of one. */
  ghost predicate TaskReshaped(s: System, t: System, w: nat) {
    && w in s.workers && w in t.workers && t == s.(db := t.db, workers := s.workers[w := t.workers[w]])
    && t.db.rows == s.db.rows && WorkerShape(t, t.workers[w])
    && |s.db.logs| <= |t.db.logs|
    && (forall l :: 0 <= l < |s.db.logs| ==> t.db.logs[l].outbox == s.db.logs[l].outbox)
    && (forall l :: |s.db.logs| <= l < |t.db.logs| ==>
      t.db.logs[l].outbox == Some(s.workers[w].id) && s.workers[w].id in s.db.rows && s.workers[w].channel.Email?)
  }

  lemma TaskStepReshapes(cfg: Config, s: System, step: Step)
    requires OfTask(step) && !step.Crash? && step.w in s.workers && WorkerShape(s, s.workers[step.w])
    ensures TaskReshaped(s, ApplyWorker(cfg, s, step), step.w)
  {}

  lemma TaskMoveKeepsShape(s: System, t: System, w: nat)
    requires Shape(s) && TaskReshaped(s, t, w)
    ensures Shape(t)
  {
    assert WorkerShape(s, s.workers[w]);
    forall i | i in t.db.rows ensures RowShape(t, i, t.db.rows[i]) {
      assert RowShape(s, i, s.db.rows[i]);
    }
    forall v | v in t.workers ensures WorkerShape(t, t.workers[v]) {
      assert v != w ==> WorkerShape(s, s.workers[v]);
    }
  }

  lemma TaskStepKeepsShape(cfg: Config, s: System, step: Step)
    requires Shape(s) && OfTask(step)
    ensures Shape(ApplyWorker(cfg, s, step))
  {
    if step.w in s.workers {
      assert WorkerShape(s, s.workers[step.w]);
      if step.Crash? {
        FewerTasksKeepShape(s, Gone(s, step.w));
      } else {
        TaskStepReshapes(cfg, s, step);
        TaskMoveKeepsShape(s, ApplyWorker(cfg, s, step), step.w);
      }
    }
  }

  lemma FinalStepKeepsShape(s: System, step: Step)
    requires Shape(s) && IsFinalWrite(step)
    ensures Shape(ApplyFinal(s, step))
  {
    var t := ApplyFinal(s, step);
    if t.db == s.db {
      FewerTasksKeepShape(s, t);
    } else {
      var k := s.workers[step.w];
      assert WorkerShape(s, k) && RowShape(s, k.id, s.db.rows[k.id]);
      RewriteKeepsShape(s, t, k.id);
    }
  }

  lemma RowStepKeepsShape(cfg: Config, s: System, step: Step)
    requires Shape(s) && OnRow(step)
    ensures Shape(ApplyRow(cfg, s, step))
  {
    var t := ApplyRow(cfg, s, step);
    if t.db == s.db {
      FewerTasksKeepShape(s, t);
    } else if step.DeleteOld? {
      DeleteKeepsShape(s, step.id);
    } else {
      assert RowShape(s, step.id, s.db.rows[step.id]);
      RewriteKeepsShape(s, t, step.id);
    }
  }

  lemma CreateKeepsShape(cfg: Config, s: System, step: Step)
    requires Shape(s) && step.Create?
    ensures Shape(Apply(cfg, s, step))
  {
    var row := NewRow(step.channel, step.kind, step.target, s.clock);
    if Conflicts(s.db.rows, s.nextId, row) {
      assert Apply(cfg, s, step) == s;
    } else {
      assert Apply(cfg, s, step) == s.(db := s.db.(rows := s.db.rows[s.nextId := row]), nextId := s.nextId + 1);
      NewRowKeepsShape(s, row);
    }
  }

  lemma StepKeepsShape(cfg: Config, s: System, step: Step)
    requires Shape(s)
    ensures Shape(Apply(cfg, s, step))
  {
    if OfTask(step) {
      TaskStepKeepsShape(cfg, s, step);
    } else if IsFinalWrite(step) {
      FinalStepKeepsShape(s, step);
    } else if OnRow(step) {
      RowStepKeepsShape(cfg, s, step);
    } else if step.Begin? {
      BeginKeepsShape(cfg, s, step);
    } else if step.Create? {
      CreateKeepsShape(cfg, s, step);
    } else {
      FewerTasksKeepShape(s, Apply(cfg, s, step));
    }
  }

  /** Every state that any configuration can reach has the shape. */
  lemma {:induction false} ReachableShape(cfg: Config, run: seq<Step>)
    ensures Shape(Exec(cfg, run))
  {
    if run != [] {
      ReachableShape(cfg, run[..|run| - 1]);
      StepKeepsShape(cfg, Exec(cfg, run[..|run| - 1]), run[|run| - 1]);
    }
  }

  /** No step changes the channel of a row, brings a deleted row back, or makes a new row that is not pending. */
  ghost predicate KeepsChannel(s: System, t: System, id: Id) {
    && (id in s.db.rows && id in t.db.rows ==> t.db.rows[id].channel == s.db.rows[id].channel)
    && (id !in s.db.rows && id in t.db.rows ==> t.db.rows[id].status.Pending?)
  }

  lemma StepKeepsChannel(cfg: Config, s: System, step: Step, id: Id)
    requires Shape(s)
    ensures KeepsChannel(s, Apply(cfg, s, step), id)
  {
    if OfTask(step) {
      TaskFrame(cfg, s, step);
    } else if IsFinalWrite(step) {
      FinalFrame(s, step);
    } else if OnRow(step) {
      RowFrame(cfg, s, step);
    } else {
      assert s.nextId in s.db.rows ==> RowShape(s, s.nextId, s.db.rows[s.nextId]);
    }
  }
}
