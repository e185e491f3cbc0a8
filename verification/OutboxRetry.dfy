/** Retries are bounded by the row itself: attempts count the begins of every run, and a row whose
    workers all die is given up after max_attempts of them. */
module OutboxRetry {
  import opened Wrappers
  import opened OutboxTables
  import opened OutboxProtocol
  import opened OutboxLease

  // ---------- attempts are the begins ----------

  /** Attempts begun on the row in a run. */
  ghost function Begins(cfg: Config, run: seq<Step>, id: Id): nat {
    if run == [] then 0
    else
      var s := Exec(cfg, run[..|run| - 1]);
      var step := run[|run| - 1];
      Begins(cfg, run[..|run| - 1], id) +
      if BeginsOn(cfg, s, step, id) then 1 else 0
  }

  /** Handler calls for the row in a run, whatever comes of them. */
  ghost function HandlerCalls(cfg: Config, run: seq<Step>, id: Id): nat {
    if run == [] then 0
    else
      var s := Exec(cfg, run[..|run| - 1]);
      var step := run[|run| - 1];
      HandlerCalls(cfg, run[..|run| - 1], id) +
      if CallsFor(cfg, s, step, id) then 1 else 0
  }

  /** Live attempts on the row that have not called their handler yet. */
  function Untouched(s: System, id: Id): set<nat> {
    set w | w in s.workers && s.workers[w].id == id && s.workers[w].phase.Started?
  }

  /** The step begins an attempt on the row. */
  ghost predicate BeginsOn(cfg: Config, s: System, step: Step, id: Id) {
    step.Begin? && step.id == id && MayBegin(cfg, s, step.w, id, step.checkedAt) &&
    BeginTx(s.db, id, cfg.timeout, step.checkedAt, s.clock).1.Begun?
  }

  /** The step is what a handler call for the row first comes to: a log, a message, an exception, or
      its return without sending. */
  ghost predicate CallsFor(cfg: Config, s: System, step: Step, id: Id) {
    (OfTask(step) || IsFinalWrite(step)) && !step.Crash? && step.w in s.workers && s.workers[step.w].id == id &&
    s.workers[step.w].phase.Started? && Apply(cfg, s, step) != s
  }

  ghost predicate Issued(s: System) {
    && (forall id :: id in s.db.rows ==> id < s.nextId)
    && (forall w :: w in s.workers ==> s.workers[w].id < s.nextId)
  }

  lemma StepKeepsIssued(cfg: Config, s: System, step: Step)
    requires Issued(s)
    ensures Issued(Apply(cfg, s, step)) && s.nextId <= Apply(cfg, s, step).nextId
  {
    if OfTask(step) {
      TaskFrame(cfg, s, step);
    } else if IsFinalWrite(step) {
      FinalFrame(s, step);
    } else if OnRow(step) {
      RowFrame(cfg, s, step);
    }
  }

  lemma {:induction false} ReachableIssued(cfg: Config, run: seq<Step>)
    ensures Issued(Exec(cfg, run))
  {
    if run != [] {
      ReachableIssued(cfg, run[..|run| - 1]);
      StepKeepsIssued(cfg, Exec(cfg, run[..|run| - 1]), run[|run| - 1]);
    }
  }

  /** One begin is one attempt; no other step changes the count. */
  lemma StepCountsAttempts(cfg: Config, s: System, step: Step, id: Id)
    requires Issued(s) && id in Apply(cfg, s, step).db.rows
    ensures var t := Apply(cfg, s, step);
      t.db.rows[id].attempts ==
        (if id in s.db.rows then s.db.rows[id].attempts else 0) + (if BeginsOn(cfg, s, step, id) then 1 else 0)
    ensures id !in s.db.rows ==> id == s.nextId
  {
    if OfTask(step) {
      TaskFrame(cfg, s, step);
    } else if IsFinalWrite(step) {
      FinalFrame(s, step);
    } else if OnRow(step) {
      RowFrame(cfg, s, step);
    }
  }

  /** With any configuration, even where attempts overlap: the attempts column counts the begins. */
  lemma {:induction false} AttemptsAreBegins(cfg: Config, run: seq<Step>, id: Id)
    ensures var s := Exec(cfg, run);
      && (id in s.db.rows ==> s.db.rows[id].attempts == Begins(cfg, run, id))
      && (id >= s.nextId ==> Begins(cfg, run, id) == 0)
  {
    if run != [] {
      var s := Exec(cfg, run[..|run| - 1]);
      AttemptsAreBegins(cfg, run[..|run| - 1], id);
      ReachableIssued(cfg, run[..|run| - 1]);
      StepKeepsIssued(cfg, s, run[|run| - 1]);
      if id in Exec(cfg, run).db.rows { StepCountsAttempts(cfg, s, run[|run| - 1], id); }
    }
  }

  /** Every handler call uses up an attempt of its own: calls never exceed the begins, and hence
      never exceed the attempts of an existing row. */
  lemma {:induction false} HandlerCallsBounded(cfg: Config, run: seq<Step>, id: Id)
    ensures HandlerCalls(cfg, run, id) + |Untouched(Exec(cfg, run), id)| <= Begins(cfg, run, id)
    ensures id in Exec(cfg, run).db.rows ==> HandlerCalls(cfg, run, id) <= Exec(cfg, run).db.rows[id].attempts
  {
    AttemptsAreBegins(cfg, run, id);
    if run != [] {
      var before := run[..|run| - 1];
      HandlerCallsBounded(cfg, before, id);
      UntouchedChange(cfg, Exec(cfg, before), run[|run| - 1], id);
    }
  }

  lemma BeginAddsUntouched(cfg: Config, s: System, step: Step, id: Id)
    requires step.Begin?
    ensures |Untouched(Apply(cfg, s, step), id)| <= |Untouched(s, id)| + (if BeginsOn(cfg, s, step, id) then 1 else 0)
  {
    var t := Apply(cfg, s, step);
    if BeginsOn(cfg, s, step, id) {
      assert Untouched(t, id) <= Untouched(s, id) + {step.w};
      Subset(Untouched(t, id), Untouched(s, id) + {step.w});
    } else {
      assert Untouched(t, id) <= Untouched(s, id);
      Subset(Untouched(t, id), Untouched(s, id));
    }
  }

  lemma CallTakesUntouched(cfg: Config, s: System, step: Step, id: Id)
    requires (OfTask(step) || IsFinalWrite(step)) && !step.Crash?
    ensures |Untouched(Apply(cfg, s, step), id)| <= |Untouched(s, id)| - (if CallsFor(cfg, s, step, id) then 1 else 0)
  {
    var t := Apply(cfg, s, step);
    if CallsFor(cfg, s, step, id) {
      assert step.w in Untouched(s, id) && Untouched(t, id) <= Untouched(s, id) - {step.w};
      Subset(Untouched(t, id), Untouched(s, id) - {step.w});
    } else {
      assert Untouched(t, id) <= Untouched(s, id);
      Subset(Untouched(t, id), Untouched(s, id));
    }
  }

  lemma UntouchedChange(cfg: Config, s: System, step: Step, id: Id)
    ensures |Untouched(Apply(cfg, s, step), id)| <=
      |Untouched(s, id)| + (if BeginsOn(cfg, s, step, id) then 1 else 0) - (if CallsFor(cfg, s, step, id) then 1 else 0)
  {
    if step.Begin? {
      BeginAddsUntouched(cfg, s, step, id);
    } else if (OfTask(step) || IsFinalWrite(step)) && !step.Crash? {
      CallTakesUntouched(cfg, s, step, id);
    } else {
      assert Untouched(Apply(cfg, s, step), id) <= Untouched(s, id);
      Subset(Untouched(Apply(cfg, s, step), id), Untouched(s, id));
    }
  }

  lemma Subset(b: set<nat>, a: set<nat>)
    requires b <= a
    ensures |b| <= |a|
  {
    assert a == b + (a - b);
  }

  // ---------- giving up, over runs of the protocol ----------

  function Max(a: nat, b: nat): nat {
    if a < b then b else a
  }

  /** A reaper pass asks for another task for the row. */
  ghost predicate RequeuesOn(cfg: Config, s: System, step: Step, id: Id) {
    step.ReapProcessing? && step.id == id && step.cutoff <= s.clock - cfg.timeout &&
    ReapTx(s.db, id, step.cutoff, cfg.maxAttempts, s.clock).1.Requeue?
  }

  /** A task has been asked for since the row's last begin, or the row has not been begun. */
  ghost predicate Asked(cfg: Config, run: seq<Step>, id: Id) {
    if run == [] then true
    else
      var s := Exec(cfg, run[..|run| - 1]);
      var step := run[|run| - 1];
      if BeginsOn(cfg, s, step, id) then false
      else RequeuesOn(cfg, s, step, id) || Asked(cfg, run[..|run| - 1], id)
  }

  /** Only the reapers ask for tasks again, and each task asked for runs before the next pass. */
  ghost predicate OnlyReapersRetry(cfg: Config, run: seq<Step>, id: Id) {
    run == [] ||
    var before := run[..|run| - 1];
    OnlyReapersRetry(cfg, before, id) &&
    (BeginsOn(cfg, Exec(cfg, before), run[|run| - 1], id) ==> Asked(cfg, before, id))
  }

  /** In every such run, whatever other rows and tasks do, a row is begun at most max(1, max_attempts)
      times; a further task is only ever asked for while attempts are left. */
  lemma {:induction false} BeginsBounded(cfg: Config, run: seq<Step>, id: Id)
    requires OnlyReapersRetry(cfg, run, id)
    ensures Begins(cfg, run, id) <= Max(1, cfg.maxAttempts)
    ensures Asked(cfg, run, id) ==> Begins(cfg, run, id) < Max(1, cfg.maxAttempts)
  {
    if run != [] {
      var before := run[..|run| - 1];
      BeginsBounded(cfg, before, id);
      AttemptsAreBegins(cfg, before, id);
    }
  }

  /** The row is as it was, or was deleted and will not come back. */
  ghost predicate Unchanged(s: System, id: Id, row: Row) {
    id < s.nextId && (id in s.db.rows ==> s.db.rows[id] == row)
  }

  /** Under the lease nothing but a begin changes a failed row. */
  lemma FailedStays(cfg: Config, s: System, step: Step, id: Id, row: Row)
    requires Lease(cfg, s) && Issued(s) && row.status.Failed? && Unchanged(s, id, row) && !BeginsOn(cfg, s, step, id)
    ensures Unchanged(Apply(cfg, s, step), id, row)
  {
    StepIsLegal(cfg, s, step, id);
    StepKeepsIssued(cfg, s, step);
    if id in s.db.rows && id in Apply(cfg, s, step).db.rows {
      FailedOnlyBegins(cfg, s, step, id);
    }
  }

  lemma FailedOnlyBegins(cfg: Config, s: System, step: Step, id: Id)
    requires LegalChange(cfg, s, Apply(cfg, s, step), id)
    requires id in s.db.rows && s.db.rows[id].status.Failed? && id in Apply(cfg, s, step).db.rows
    requires !BeginsOn(cfg, s, step, id)
    ensures Apply(cfg, s, step).db.rows[id] == s.db.rows[id]
  {}

  lemma FailedIsNotRequeued(cfg: Config, s: System, step: Step, id: Id, row: Row)
    requires row.status.Failed? && Unchanged(s, id, row)
    ensures !RequeuesOn(cfg, s, step, id)
  {}

  ghost predicate GivenUp(cfg: Config, run: seq<Step>, id: Id, row: Row, begins: nat) {
    && Unchanged(Exec(cfg, run), id, row)
    && !Asked(cfg, run, id) && Begins(cfg, run, id) == begins
    && (id in Exec(cfg, run).db.rows ==> NeverReaped(Exec(cfg, run).db, id))
  }

  lemma StillGivenUp(cfg: Config, run: seq<Step>, step: Step, id: Id, row: Row, begins: nat)
    requires cfg.taskLimit <= cfg.timeout && row.status.Failed?
    requires GivenUp(cfg, run, id, row, begins) && OnlyReapersRetry(cfg, run + [step], id)
    ensures GivenUp(cfg, run + [step], id, row, begins)
  {
    assert (run + [step])[..|run|] == run;
    ReachableLease(cfg, run);
    ReachableIssued(cfg, run);
    FailedStays(cfg, Exec(cfg, run), step, id, row);
    FailedIsNotRequeued(cfg, Exec(cfg, run), step, id, row);
    if id in Exec(cfg, run + [step]).db.rows { SettledIsNeverReaped(Exec(cfg, run + [step]).db, id); }
  }

  lemma GivenUpNow(cfg: Config, run: seq<Step>, id: Id)
    requires !Asked(cfg, run, id) && id in Exec(cfg, run).db.rows && Exec(cfg, run).db.rows[id].status.Failed?
    ensures GivenUp(cfg, run, id, Exec(cfg, run).db.rows[id], Begins(cfg, run, id))
  {
    ReachableIssued(cfg, run);
    SettledIsNeverReaped(Exec(cfg, run).db, id);
  }

  /** A failed row for which no task was asked stays failed for ever and no reaper selects it. */
  lemma {:induction false} GivenUpForever(cfg: Config, run: seq<Step>, more: seq<Step>, id: Id)
    requires cfg.taskLimit <= cfg.timeout && OnlyReapersRetry(cfg, run + more, id) && !Asked(cfg, run, id)
    requires id in Exec(cfg, run).db.rows && Exec(cfg, run).db.rows[id].status.Failed?
    ensures GivenUp(cfg, run + more, id, Exec(cfg, run).db.rows[id], Begins(cfg, run, id))
    decreases |more|
  {
    if more == [] {
      assert run + more == run;
      GivenUpNow(cfg, run, id);
    } else {
      var n := |more| - 1;
      var before := run + more[..n];
      assert run + more == before + [more[n]];
      PrefixRetries(cfg, before, [more[n]], id);
      GivenUpForever(cfg, run, more[..n], id);
      StillGivenUp(cfg, before, more[n], id, Exec(cfg, run).db.rows[id], Begins(cfg, run, id));
    }
  }

  /** An exhausted row that turns stale without a recorded send becomes FAILED at the next pass, and
      that is the end of it. */
  lemma ExhaustedIsGivenUp(cfg: Config, run: seq<Step>, id: Id, cutoff: int, more: seq<Step>)
    requires cfg.taskLimit <= cfg.timeout && OnlyReapersRetry(cfg, run + [ReapProcessing(id, cutoff)] + more, id)
    requires Begins(cfg, run, id) == Max(1, cfg.maxAttempts)
    requires var s := Exec(cfg, run);
      && id in s.db.rows && s.db.rows[id].status.Processing? && Stale(s.db.rows[id], cutoff)
      && cutoff <= s.clock - cfg.timeout && LatestSentLog(s.db.logs, id).None?
    ensures var reaped := Exec(cfg, run + [ReapProcessing(id, cutoff)]);
      && id in reaped.db.rows && reaped.db.rows[id].status.Failed?
      && GivenUp(cfg, run + [ReapProcessing(id, cutoff)] + more, id, reaped.db.rows[id], Max(1, cfg.maxAttempts))
  {
    var reap := ReapProcessing(id, cutoff);
    ExecSnoc(cfg, run, reap);
    AttemptsAreBegins(cfg, run, id);
    PrefixRetries(cfg, run + [reap], more, id);
    assert (run + [reap])[..|run|] == run;
    BeginsBounded(cfg, run, id);
    GivenUpForever(cfg, run + [reap], more, id);
  }

  /** In every such run a failed row for which no task was asked is given up for ever, if and only if a
      task cannot outlive the processing timeout. */
  lemma GivenUpIff(cfg: Config)
    ensures (forall run, more, id :: StaysGivenUp(cfg, run, more, id)) <==> cfg.taskLimit <= cfg.timeout
  {
    if cfg.taskLimit <= cfg.timeout {
      forall run, more, id ensures StaysGivenUp(cfg, run, more, id) {
        if Abandoned(cfg, run, more, id) { GivenUpForever(cfg, run, more, id); }
      }
    } else if cfg.maxAttempts <= 1 {
      var run := ExhaustedUnderTask(cfg);
      SentAfterAll(cfg, run, 0);
    } else {
      var run := FailedUnderTask(cfg);
      SentAfterAll(cfg, run, 1);
    }
  }

  ghost predicate Abandoned(cfg: Config, run: seq<Step>, more: seq<Step>, id: Id) {
    && OnlyReapersRetry(cfg, run + more, id) && !Asked(cfg, run, id)
    && id in Exec(cfg, run).db.rows && Exec(cfg, run).db.rows[id].status.Failed?
  }

  ghost predicate StaysGivenUp(cfg: Config, run: seq<Step>, more: seq<Step>, id: Id) {
    Abandoned(cfg, run, more, id) ==> GivenUp(cfg, run + more, id, Exec(cfg, run).db.rows[id], Begins(cfg, run, id))
  }

  /** One more step of such a run. */
  lemma RetriesSnoc(cfg: Config, run: seq<Step>, step: Step, id: Id)
    requires OnlyReapersRetry(cfg, run, id) && (BeginsOn(cfg, Exec(cfg, run), step, id) ==> Asked(cfg, run, id))
    ensures OnlyReapersRetry(cfg, run + [step], id) && Exec(cfg, run + [step]) == Apply(cfg, Exec(cfg, run), step)
    ensures Asked(cfg, run + [step], id) <==>
      !BeginsOn(cfg, Exec(cfg, run), step, id) && (RequeuesOn(cfg, Exec(cfg, run), step, id) || Asked(cfg, run, id))
  {
    assert (run + [step])[..|run|] == run;
  }

  /** A live task writes SENT over its failed row. */
  lemma SentAfterAll(cfg: Config, run: seq<Step>, w: nat)
    requires Abandoned(cfg, run, [], 0) && w in Exec(cfg, run).workers
    requires Exec(cfg, run).workers[w] == Worker(0, Email, Exec(cfg, run).workers[w].startedAt, Started)
    ensures !StaysGivenUp(cfg, run, [WriteSent(w)], 0)
  {
    assert run + [] == run;
    RetriesSnoc(cfg, run, WriteSent(w), 0);
    var s := Exec(cfg, run);
    assert Apply(cfg, s, WriteSent(w)) == ApplyFinal(s, WriteSent(w));
    assert !Conflicts(s.db.rows, 0, SentRow(s.db.rows[0], s.clock, s.clock));
  }

  /** The first attempt of a row, still live when the row is stale and the reaper comes. */
  lemma ReapedUnderTask(cfg: Config) returns (run: seq<Step>)
    requires cfg.taskLimit > cfg.timeout
    ensures OnlyReapersRetry(cfg, run, 0)
    ensures var late := OneAttempt(Email, None).(clock := cfg.timeout + 1); var row := late.db.rows[0];
      if cfg.maxAttempts <= 1
      then !Asked(cfg, run, 0) &&
        Exec(cfg, run) == late.(db := Tables(map[0 := FailedRow(row, ATTEMPTS_EXHAUSTED, late.clock)], []))
      else Asked(cfg, run, 0) && Exec(cfg, run) == late
  {
    var first := FirstAttempt(cfg, Email, None);
    OnlyOneBegin(cfg);
    var late := OneAttempt(Email, None).(clock := cfg.timeout + 1);
    RetriesSnoc(cfg, first, Tick(cfg.timeout + 1), 0);
    TickRuns(cfg, OneAttempt(Email, None), cfg.timeout + 1);
    var ticked := first + [Tick(cfg.timeout + 1)];
    assert Exec(cfg, ticked) == late && !Asked(cfg, ticked, 0);
    LateReap(cfg);
    RetriesSnoc(cfg, ticked, ReapProcessing(0, 1), 0);
    run := ticked + [ReapProcessing(0, 1)];
  }

  lemma LateReap(cfg: Config)
    ensures var late := OneAttempt(Email, None).(clock := cfg.timeout + 1); var row := late.db.rows[0];
      && (RequeuesOn(cfg, late, ReapProcessing(0, 1), 0) <==> cfg.maxAttempts > 1)
      && Apply(cfg, late, ReapProcessing(0, 1)) ==
        if cfg.maxAttempts > 1 then late
        else late.(db := Tables(map[0 := FailedRow(row, ATTEMPTS_EXHAUSTED, late.clock)], []))
  {
    var late := OneAttempt(Email, None).(clock := cfg.timeout + 1);
    assert Apply(cfg, late, ReapProcessing(0, 1)) == ApplyRow(cfg, late, ReapProcessing(0, 1));
  }

  lemma OnlyOneBegin(cfg: Config)
    ensures var run := [Create(Email, "order", None), Begin(0, 0, 0)];
      OnlyReapersRetry(cfg, run, 0) && !Asked(cfg, run, 0)
  {
    var created := [Create(Email, "order", None)];
    var first := FirstAttempt(cfg, Email, None);
    assert [] + created == created && created + [Begin(0, 0, 0)] == first;
    RetriesSnoc(cfg, [], Create(Email, "order", None), 0);
    FirstSteps(cfg, Email, None);
    assert Exec(cfg, []) == INITIAL;
    assert BeginsOn(cfg, Exec(cfg, created), Begin(0, 0, 0), 0);
    RetriesSnoc(cfg, created, Begin(0, 0, 0), 0);
  }

  lemma ExhaustedUnderTask(cfg: Config) returns (run: seq<Step>)
    requires cfg.taskLimit > cfg.timeout && cfg.maxAttempts <= 1
    ensures Abandoned(cfg, run, [], 0) && 0 in Exec(cfg, run).workers
    ensures Exec(cfg, run).workers[0] == Worker(0, Email, 0, Started)
  {
    run := ReapedUnderTask(cfg);
    assert run + [] == run;
  }

  /** A step that neither begins a row nor requeues one. */
  lemma QuietSnoc(cfg: Config, run: seq<Step>, step: Step, id: Id)
    requires OnlyReapersRetry(cfg, run, id) && !Asked(cfg, run, id) && !step.Begin? && !step.ReapProcessing?
    ensures OnlyReapersRetry(cfg, run + [step], id) && !Asked(cfg, run + [step], id)
    ensures Exec(cfg, run + [step]) == Apply(cfg, Exec(cfg, run), step)
  {
    RetriesSnoc(cfg, run, step, id);
  }

  lemma LateBegin(cfg: Config)
    ensures var late := OneAttempt(Email, None).(clock := cfg.timeout + 1);
      BeginsOn(cfg, late, Begin(1, 0, cfg.timeout + 1), 0)
  {
    var late := OneAttempt(Email, None).(clock := cfg.timeout + 1);
    assert !Conflicts(late.db.rows, 0, BegunRow(late.db.rows[0], late.clock));
  }

  lemma BegunUnderTask(cfg: Config) returns (run: seq<Step>)
    requires cfg.taskLimit > cfg.timeout && cfg.maxAttempts > 1
    ensures OnlyReapersRetry(cfg, run, 0) && !Asked(cfg, run, 0) && Exec(cfg, run) == OverlapState(cfg, Email, None)
  {
    var reaped := ReapedUnderTask(cfg);
    LateBegin(cfg);
    SecondBegins(cfg, Email, None);
    RetriesSnoc(cfg, reaped, Begin(1, 0, cfg.timeout + 1), 0);
    run := reaped + [Begin(1, 0, cfg.timeout + 1)];
  }

  /** The requeued row is begun again, and the first attempt fails it under the second. */
  lemma FailedUnderTask(cfg: Config) returns (run: seq<Step>)
    requires cfg.taskLimit > cfg.timeout && cfg.maxAttempts > 1
    ensures Abandoned(cfg, run, [], 0) && 1 in Exec(cfg, run).workers
    ensures Exec(cfg, run).workers[1] == Worker(0, Email, cfg.timeout + 1, Started)
  {
    var begun := BegunUnderTask(cfg);
    run := begun + [Raise(0)] + [WriteFailed(0, "")];
    QuietSnoc(cfg, begun, Raise(0), 0);
    QuietSnoc(cfg, begun + [Raise(0)], WriteFailed(0, ""), 0);
    OneOfTwoFails(cfg, Email, None);
    assert run + [] == run;
  }

  lemma {:induction false} PrefixRetries(cfg: Config, run: seq<Step>, more: seq<Step>, id: Id)
    requires OnlyReapersRetry(cfg, run + more, id)
    ensures OnlyReapersRetry(cfg, run, id)
    decreases |more|
  {
    if more == [] {
      assert run + more == run;
    } else {
      assert (run + more)[..|run + more| - 1] == run + more[..|more| - 1];
      PrefixRetries(cfg, run, more[..|more| - 1], id);
    }
  }

  /** Neither reaper selects the row again, at any time. */
  ghost predicate NeverReaped(t: Tables, id: Id) {
    && (forall cutoff: int, maxAttempts: int, now: nat :: ReapTx(t, id, cutoff, maxAttempts, now) == (t, Skipped))
    && (forall cutoff: int :: ReapPendingTx(t, id, cutoff) == Skipped)
  }

  lemma SettledIsNeverReaped(t: Tables, id: Id)
    requires id in t.rows && (t.rows[id].status.Sent? || t.rows[id].status.Failed?)
    ensures NeverReaped(t, id)
  {}

  // ---------- the exact number of attempts when every worker dies ----------

  /** One life of the row when its workers die: a task begins an attempt at beginAt and dies, having
      recorded the send or not; the reaper finds the row at reapAt. Other sessions have left the tables
      atBegin before the begin, and atReap before the pass. */
  datatype Round = Round(beginAt: nat, recorded: bool, reapAt: nat, atBegin: Tables, atReap: Tables)

  /** Other sessions have changed anything but this row and whether it has a sent log. */
  ghost predicate OthersActed(t: Tables, u: Tables, id: Id) {
    && OneInFlightPerTarget(u.rows)
    && id in t.rows && id in u.rows && u.rows[id] == t.rows[id]
    && (LatestSentLog(u.logs, id).Some? <==> LatestSentLog(t.logs, id).Some?)
  }

  /** What the task leaves behind when it dies. */
  function Died(cfg: Config, id: Id, r: Round): Tables {
    var begun := BeginTx(r.atBegin, id, cfg.timeout, r.beginAt, r.beginAt).0;
    if r.recorded then begun.(logs := begun.logs + [EmailLog(Some(id), "", LogStatus.Sent, Some(r.beginAt))]) else begun
  }

  predicate HasBegun(cfg: Config, id: Id, r: Round) {
    BeginTx(r.atBegin, id, cfg.timeout, r.beginAt, r.beginAt).1.Begun?
  }

  /** The tables after the round, and whether the reaper has queued another task. */
  function AfterRound(cfg: Config, id: Id, r: Round): (Tables, bool) {
    if !HasBegun(cfg, id, r) then (Died(cfg, id, r), false)
    else
      var (reaped, verdict) := ReapTx(r.atReap, id, r.reapAt - cfg.timeout, cfg.maxAttempts, r.reapAt);
      (reaped, verdict.Requeue?)
  }

  /** The rounds in order, as long as each reaper pass queues the next task; and how many began. */
  function Retries(cfg: Config, t: Tables, id: Id, rounds: seq<Round>): (Tables, nat)
    decreases |rounds|
  {
    if rounds == [] then (t, 0)
    else
      var (after, again) := AfterRound(cfg, id, rounds[0]);
      if !again then (after, if HasBegun(cfg, id, rounds[0]) then 1 else 0)
      else
        var (last, begins) := Retries(cfg, after, id, rounds[1..]);
        (last, begins + 1)
  }

  /** Between the steps of the rounds other sessions do what they like. */
  ghost predicate Linked(cfg: Config, t: Tables, id: Id, rounds: seq<Round>)
    decreases |rounds|
  {
    rounds == [] ||
    (OthersActed(t, rounds[0].atBegin, id) && OthersActed(Died(cfg, id, rounds[0]), rounds[0].atReap, id) &&
     Linked(cfg, AfterRound(cfg, id, rounds[0]).0, id, rounds[1..]))
  }

  /** Each pass comes after the row has become stale, and each queued task after the pass. */
  ghost predicate WellTimed(cfg: Config, rounds: seq<Round>) {
    && (forall i :: 0 <= i < |rounds| ==> rounds[i].beginAt + cfg.timeout < rounds[i].reapAt)
    && (forall i :: 0 < i < |rounds| ==> rounds[i - 1].reapAt <= rounds[i].beginAt)
  }

  /** How many more attempts a row with that many gets. */
  function Budget(cfg: Config, attempts: nat): nat {
    if cfg.maxAttempts > attempts then cfg.maxAttempts - attempts else 1
  }

  function FirstRecorded(rounds: seq<Round>): (n: nat)
    ensures n <= |rounds| && (n < |rounds| ==> rounds[n].recorded)
    ensures forall i :: 0 <= i < n ==> !rounds[i].recorded
  {
    if rounds == [] || rounds[0].recorded then 0 else 1 + FirstRecorded(rounds[1..])
  }

  ghost predicate Retriable(cfg: Config, t: Tables, id: Id, now: nat) {
    && id in t.rows
    && LatestSentLog(t.logs, id).None?
    && (t.rows[id].status.Pending? || (t.rows[id].status.Processing? && Stale(t.rows[id], now - cfg.timeout)))
  }

  /** The task of a round begins an attempt. */
  lemma RoundBegins(cfg: Config, t: Tables, id: Id, r: Round)
    requires Retriable(cfg, t, id, r.beginAt) && OthersActed(t, r.atBegin, id)
    ensures var died := Died(cfg, id, r);
      && HasBegun(cfg, id, r) && id in died.rows && died.rows[id] == BegunRow(t.rows[id], r.beginAt)
      && (LatestSentLog(died.logs, id).Some? <==> r.recorded)
  {
    InFlightRowNeverRejected(r.atBegin.rows, id, BegunRow(t.rows[id], r.beginAt));
    if r.recorded {
      assert SentLogOf(Died(cfg, id, r).logs[|r.atBegin.logs|], id);
    }
  }

  /** What the reaper does to a stale row. */
  lemma ReapSettles(t: Tables, id: Id, cutoff: int, maxAttempts: nat, now: nat)
    requires id in t.rows && t.rows[id].status.Processing? && Stale(t.rows[id], cutoff)
    ensures var (after, verdict) := ReapTx(t, id, cutoff, maxAttempts, now);
      && id in after.rows && after.rows[id].attempts == t.rows[id].attempts
      && (verdict.Requeue? <==> LatestSentLog(t.logs, id).None? && t.rows[id].attempts < maxAttempts)
      && (verdict.Requeue? ==> after == t)
      && (!verdict.Requeue? ==> NeverReaped(after, id))
      && (!verdict.Requeue? ==>
        after.rows[id].status == if LatestSentLog(t.logs, id).Some? then Status.Sent else Status.Failed)
  {
    var (after, verdict) := ReapTx(t, id, cutoff, maxAttempts, now);
    if !verdict.Requeue? {
      SettledIsNeverReaped(after, id);
    }
  }

  lemma RoundOutcome(cfg: Config, t: Tables, id: Id, r: Round)
    requires Retriable(cfg, t, id, r.beginAt) && r.beginAt + cfg.timeout < r.reapAt
    requires OthersActed(t, r.atBegin, id) && OthersActed(Died(cfg, id, r), r.atReap, id)
    ensures var (after, again) := AfterRound(cfg, id, r); var attempts := t.rows[id].attempts;
      && HasBegun(cfg, id, r)
      && id in after.rows && after.rows[id].attempts == attempts + 1
      && again == (!r.recorded && attempts + 1 < cfg.maxAttempts)
      && (again ==> forall now: nat :: r.reapAt <= now ==> Retriable(cfg, after, id, now))
      && (!again ==> NeverReaped(after, id))
      && (!again ==> after.rows[id].status == if r.recorded then Status.Sent else Status.Failed)
      && (again ==> after.rows[id].status.Processing?)
  {
    RoundBegins(cfg, t, id, r);
    ReapSettles(r.atReap, id, r.reapAt - cfg.timeout, cfg.maxAttempts, r.reapAt);
  }

  /** If workers always die and only the reapers queue tasks, then from its current number of
      attempts the row is begun exactly until the first recorded send or the end of its budget,
      whichever comes first; it ends as SENT or FAILED accordingly and is never selected again. A
      fresh row has the budget max(1, max_attempts). */
  lemma {:induction false} RetriesEnd(cfg: Config, t: Tables, id: Id, rounds: seq<Round>)
    requires rounds != [] && WellTimed(cfg, rounds) && Linked(cfg, t, id, rounds) &&
      Retriable(cfg, t, id, rounds[0].beginAt)
    ensures var (last, begins) := Retries(cfg, t, id, rounds);
      var budget := Budget(cfg, t.rows[id].attempts); var n := FirstRecorded(rounds);
      && begins == (if n < budget && n < |rounds| then n + 1 else if budget <= |rounds| then budget else |rounds|)
      && id in last.rows && last.rows[id].attempts == t.rows[id].attempts + begins
      && (if n < budget && n < |rounds| then last.rows[id].status.Sent? && NeverReaped(last, id)
          else if budget <= |rounds| then last.rows[id].status.Failed? && NeverReaped(last, id)
          else last.rows[id].status.Processing?)
    decreases |rounds|
  {
    var r := rounds[0];
    RoundOutcome(cfg, t, id, r);
    var (after, again) := AfterRound(cfg, id, r);
    if again && |rounds| > 1 {
      var rest := rounds[1..];
      assert WellTimed(cfg, rest) by {
        assert forall i :: 0 < i < |rest| ==> rest[i] == rounds[i + 1] && rest[i - 1] == rounds[i];
      }
      assert rounds[0].reapAt <= rounds[1].beginAt;
      RetriesEnd(cfg, after, id, rest);
    } else if again {
      assert rounds[1..] == [];
    }
  }
}
