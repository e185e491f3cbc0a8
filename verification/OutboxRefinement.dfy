/** The sequential code against the transition system: a task, a reaper pass or a feedback batch that
    nobody interleaves with, as OutboxStore and TelegramFeedback have them, is a run of the protocol. */
module OutboxRefinement {
  import opened Wrappers
  import opened OutboxTables
  import opened OutboxStore
  import opened OutboxProtocol
  import opened TelegramFeedback

  // ---------- a task ----------

  /** What the handler of a row comes across. */
  datatype Sending =
    | Email(recipient: string, suppressed: bool, smtp: Smtp, error: string)
    | NothingToSend
    | Message
    | Breaks(error: string)

  /** Emails are sent for email rows and messages for Telegram rows; anything can break. */
  predicate Fits(sending: Sending, channel: Channel) {
    match sending
    case Email(_, _, _, _) => channel.Email?
    case NothingToSend => channel.Email?
    case Message => channel.Telegram?
    case Breaks(_) => true
  }

  /** The log that send_outbound_email leaves. */
  function LogOf(id: Id, recipient: string, suppressed: bool, smtp: Smtp, now: nat): EmailLog {
    var status := FinalStatus(suppressed, smtp);
    EmailLog(Some(id), recipient, status, if status.Sent? then Some(now) else None)
  }

  function HandlerOf(sending: Sending, id: Id, now: nat): Handler {
    match sending
    case Email(recipient, suppressed, smtp, error) =>
      var log := LogOf(id, recipient, suppressed, smtp, now);
      if log.status.Sent? then Returns([log]) else Raises([log], error)
    case NothingToSend => Returns([])
    case Message => Returns([])
    case Breaks(error) => Raises([], error)
  }

  /** The worker's steps while its handler runs. */
  function HandlerSteps(sending: Sending, w: nat): seq<Step> {
    match sending
    case Email(recipient, suppressed, smtp, _) =>
      if suppressed then [Suppress(w, recipient)]
      else if smtp.Refuses? then [CreateLog(w, recipient), SmtpRefuse(w)]
      else [CreateLog(w, recipient), SmtpAccept(w), RecordSent(w)]
    case NothingToSend => []
    case Message => [Publish(w)]
    case Breaks(_) => [Raise(w)]
  }

  function PhaseAfter(sending: Sending, log: nat): Phase {
    match sending
    case Email(_, suppressed, smtp, _) => if FinalStatus(suppressed, smtp).Sent? then Recorded(log) else Raising
    case NothingToSend => Started
    case Message => Published
    case Breaks(_) => Raising
  }

  function FinalStep(sending: Sending, w: nat): Step {
    match sending
    case Email(_, suppressed, smtp, error) =>
      if FinalStatus(suppressed, smtp).Sent? then WriteSent(w) else WriteFailed(w, error)
    case NothingToSend => WriteSent(w)
    case Message => WriteDelivering(w)
    case Breaks(error) => WriteFailed(w, error)
  }

  /** s after the worker's handler. */
  function AfterHandler(s: System, w: nat, sending: Sending): System
    requires w in s.workers
  {
    var k := s.workers[w];
    s.(db := s.db.(logs := s.db.logs + HandlerOf(sending, k.id, s.clock).logs),
       workers := s.workers[w := k.(phase := PhaseAfter(sending, |s.db.logs|))])
  }

  predicate Ready(s: System, w: nat, sending: Sending) {
    && w in s.workers && s.workers[w].phase.Started? && s.workers[w].id in s.db.rows
    && Fits(sending, s.workers[w].channel)
  }

  lemma HandlerRuns(cfg: Config, s: System, w: nat, sending: Sending)
    requires Ready(s, w, sending)
    ensures Run(cfg, s, HandlerSteps(sending, w)) == AfterHandler(s, w, sending)
  {
    if sending.Email? && !sending.suppressed {
      if sending.smtp.Refuses? {
        RefusedRuns(cfg, s, w, sending);
      } else {
        AcceptedRuns(cfg, s, w, sending);
      }
    } else {
      ShortHandlerRuns(cfg, s, w, sending);
    }
  }

  /** At most one step. */
  lemma ShortHandlerRuns(cfg: Config, s: System, w: nat, sending: Sending)
    requires Ready(s, w, sending) && (sending.Email? ==> sending.suppressed)
    ensures Run(cfg, s, HandlerSteps(sending, w)) == AfterHandler(s, w, sending)
  {
    var steps := HandlerSteps(sending, w);
    assert s.db.logs + [] == s.db.logs;
    if steps == [] {
      assert s.workers[w := s.workers[w].(phase := Started)] == s.workers;
    } else {
      assert steps == [steps[0]] + [];
      RunCons(cfg, s, steps[0], []);
      assert Apply(cfg, s, steps[0]) == ApplyWorker(cfg, s, steps[0]);
    }
  }

  /** A new log, and its final status. */
  lemma LogThenStatus(logs: seq<EmailLog>, log: EmailLog, status: LogStatus, sentAt: Option<nat>)
    ensures (logs + [log])[|logs| := log.(status := status, sentAt := sentAt)] ==
      logs + [log.(status := status, sentAt := sentAt)]
  {}

  lemma RefusedRuns(cfg: Config, s: System, w: nat, sending: Sending)
    requires Ready(s, w, sending) && sending.Email? && !sending.suppressed && sending.smtp.Refuses?
    ensures Run(cfg, s, HandlerSteps(sending, w)) == AfterHandler(s, w, sending)
  {
    RunTwo(cfg, s, CreateLog(w, sending.recipient), SmtpRefuse(w));
    var logged := Apply(cfg, s, CreateLog(w, sending.recipient));
    assert logged == ApplyWorker(cfg, s, CreateLog(w, sending.recipient));
    assert Apply(cfg, logged, SmtpRefuse(w)) == ApplyWorker(cfg, logged, SmtpRefuse(w));
    LogThenStatus(s.db.logs, EmailLog(Some(s.workers[w].id), sending.recipient, Queued, None), LogStatus.Failed, None);
  }

  lemma AcceptedRuns(cfg: Config, s: System, w: nat, sending: Sending)
    requires Ready(s, w, sending) && sending.Email? && !sending.suppressed && sending.smtp.Accepts?
    ensures Run(cfg, s, HandlerSteps(sending, w)) == AfterHandler(s, w, sending)
  {
    assert HandlerSteps(sending, w) == [CreateLog(w, sending.recipient)] + [SmtpAccept(w), RecordSent(w)];
    RunCons(cfg, s, CreateLog(w, sending.recipient), [SmtpAccept(w), RecordSent(w)]);
    var logged := Apply(cfg, s, CreateLog(w, sending.recipient));
    assert logged == ApplyWorker(cfg, s, CreateLog(w, sending.recipient));
    RunTwo(cfg, logged, SmtpAccept(w), RecordSent(w));
    var accepted := Apply(cfg, logged, SmtpAccept(w));
    assert accepted == ApplyWorker(cfg, logged, SmtpAccept(w));
    assert Apply(cfg, accepted, RecordSent(w)) == ApplyWorker(cfg, accepted, RecordSent(w));
    LogThenStatus(s.db.logs, EmailLog(Some(s.workers[w].id), sending.recipient, Queued, None), LogStatus.Sent,
      Some(s.clock));
  }

  /** The final write of an attempt, as the sequential code makes it. */
  function FinalTables(t: Tables, id: Id, channel: Channel, handler: Handler, now: nat): Tables {
    if handler.Raises? then FailTx(t, id, handler.error, now).0
    else if channel.Telegram? then DeliverTx(t, id, now).0
    else SendTx(t, id, now).0
  }

  /** `at` is when the handler ran. */
  lemma FinalStepRuns(cfg: Config, s: System, w: nat, sending: Sending, log: nat, at: nat)
    requires w in s.workers && Fits(sending, s.workers[w].channel) && s.workers[w].phase == PhaseAfter(sending, log)
    ensures Apply(cfg, s, FinalStep(sending, w)) ==
      Gone(s, w).(db := FinalTables(s.db, s.workers[w].id, s.workers[w].channel,
        HandlerOf(sending, s.workers[w].id, at), s.clock))
  {
    assert Apply(cfg, s, FinalStep(sending, w)) == ApplyFinal(s, FinalStep(sending, w));
  }

  /** Time passes before the handler's effects and again before the final write. */
  function TaskSteps(sending: Sending, w: nat, before: nat, after: nat): seq<Step> {
    [Tick(before)] + (HandlerSteps(sending, w) + [Tick(after), FinalStep(sending, w)])
  }

  lemma FinishRuns(cfg: Config, s: System, w: nat, sending: Sending, after: nat, log: nat, at: nat)
    requires w in s.workers && Fits(sending, s.workers[w].channel) && s.workers[w].phase == PhaseAfter(sending, log)
    requires MayTick(cfg, s, after)
    ensures var k := s.workers[w]; var end := s.clock + after;
      Run(cfg, s, [Tick(after), FinalStep(sending, w)]) ==
      Gone(s, w).(clock := end, db := FinalTables(s.db, k.id, k.channel, HandlerOf(sending, k.id, at), end))
  {
    RunTwo(cfg, s, Tick(after), FinalStep(sending, w));
    TickRuns(cfg, s, after);
    FinalStepRuns(cfg, s.(clock := s.clock + after), w, sending, log, at);
  }

  /** s after the task is done. */
  function Done(s: System, w: nat, sending: Sending, before: nat, after: nat): System
    requires w in s.workers
  {
    var k := s.workers[w];
    var handler := HandlerOf(sending, k.id, s.clock + before);
    var end := s.clock + before + after;
    Gone(s, w).(clock := end, db := FinalTables(s.db.(logs := s.db.logs + handler.logs), k.id, k.channel, handler, end))
  }

  lemma RunThree(cfg: Config, s: System, step: Step, body: seq<Step>, tail: seq<Step>, after: System, handled: System)
    requires Apply(cfg, s, step) == after && Run(cfg, after, body) == handled
    ensures Run(cfg, s, [step] + (body + tail)) == Run(cfg, handled, tail)
  {
    RunCons(cfg, s, step, body + tail);
    RunConcat(cfg, after, body, tail);
  }

  lemma TaskRuns(cfg: Config, s: System, w: nat, sending: Sending, before: nat, after: nat)
    requires Ready(s, w, sending) && MayTick(cfg, s, before + after)
    ensures Run(cfg, s, TaskSteps(sending, w, before, after)) == Done(s, w, sending, before, after)
  {
    var ticked := s.(clock := s.clock + before);
    var tail := [Tick(after), FinalStep(sending, w)];
    TickRuns(cfg, s, before);
    HandlerRuns(cfg, ticked, w, sending);
    RunThree(cfg, s, Tick(before), HandlerSteps(sending, w), tail, ticked, AfterHandler(ticked, w, sending));
    TailRuns(cfg, s, w, sending, before, after);
  }

  lemma TailRuns(cfg: Config, s: System, w: nat, sending: Sending, before: nat, after: nat)
    requires Ready(s, w, sending) && MayTick(cfg, s, before + after)
    ensures Run(cfg, AfterHandler(s.(clock := s.clock + before), w, sending), [Tick(after), FinalStep(sending, w)]) ==
      Done(s, w, sending, before, after)
  {
    HandledMayTick(cfg, s, w, sending, before, after);
    var handled := AfterHandler(s.(clock := s.clock + before), w, sending);
    FinishRuns(cfg, handled, w, sending, after, |s.db.logs|, s.clock + before);
    TailIsDone(s, w, sending, before, after);
  }

  lemma TailIsDone(s: System, w: nat, sending: Sending, before: nat, after: nat)
    requires w in s.workers
    ensures var handled := AfterHandler(s.(clock := s.clock + before), w, sending); var k := s.workers[w];
      var handler := HandlerOf(sending, k.id, s.clock + before); var end := s.clock + before + after;
      Gone(handled, w).(clock := end, db := FinalTables(handled.db, k.id, k.channel, handler, end)) ==
      Done(s, w, sending, before, after)
  {
    var handled := AfterHandler(s.(clock := s.clock + before), w, sending);
    OnlyTheTaskIsGone(s, handled, w, s.clock + before + after, Done(s, w, sending, before, after).db);
  }

  lemma HandledMayTick(cfg: Config, s: System, w: nat, sending: Sending, before: nat, after: nat)
    requires w in s.workers && MayTick(cfg, s, before + after)
    ensures MayTick(cfg, AfterHandler(s.(clock := s.clock + before), w, sending), after)
  {}

  lemma OnlyTheTaskIsGone(s: System, t: System, w: nat, end: nat, db: Tables)
    requires w in s.workers && w in t.workers
    requires t == s.(clock := t.clock, db := t.db, workers := s.workers[w := t.workers[w]])
    ensures Gone(t, w).(clock := end, db := db) == Gone(s, w).(clock := end, db := db)
  {
    assert t.workers - {w} == s.workers - {w};
  }

  predicate OfWorker(step: Step, w: nat) {
    (OfTask(step) || IsFinalWrite(step)) && step.w == w
  }

  lemma {:induction false} Idle(cfg: Config, s: System, w: nat, steps: seq<Step>)
    requires w !in s.workers && forall i :: 0 <= i < |steps| ==> OfWorker(steps[i], w)
    ensures Run(cfg, s, steps) == s
    decreases |steps|
  {
    if steps != [] {
      assert Apply(cfg, s, steps[0]) == s;
      Idle(cfg, s, w, steps[1..]);
    }
  }

  /** The steps of a task that did not begin: time passes. */
  lemma NotBegun(cfg: Config, s: System, w: nat, sending: Sending, before: nat, after: nat)
    requires w !in s.workers && MayTick(cfg, s, before + after)
    ensures Run(cfg, s, TaskSteps(sending, w, before, after)) == s.(clock := s.clock + before + after)
  {
    var ticked := s.(clock := s.clock + before);
    var late := s.(clock := s.clock + before + after);
    TickRuns(cfg, s, before);
    Idle(cfg, ticked, w, HandlerSteps(sending, w));
    RunThree(cfg, s, Tick(before), HandlerSteps(sending, w), [Tick(after), FinalStep(sending, w)], ticked, ticked);
    TickRuns(cfg, ticked, after);
    NoFinalStep(cfg, late, w, sending);
    RunTwo(cfg, ticked, Tick(after), FinalStep(sending, w));
  }

  lemma NoFinalStep(cfg: Config, s: System, w: nat, sending: Sending)
    requires w !in s.workers
    ensures Apply(cfg, s, FinalStep(sending, w)) == s
  {
    assert Apply(cfg, s, FinalStep(sending, w)) == ApplyFinal(s, FinalStep(sending, w));
  }

  /** What process_notification_outbox leaves. */
  ghost function Processed(cfg: Config, s: System, id: Id, checkedAt: nat, sending: Sending, before: nat,
                           after: nat): System {
    var end := s.clock + before + after;
    var handler := HandlerOf(sending, id, s.clock + before);
    s.(clock := end, db := ProcessTx(s.db, id, cfg.timeout, checkedAt, s.clock, handler, end).0)
  }

  /** s after a successful begin. */
  ghost function BegunState(cfg: Config, s: System, w: nat, id: Id, checkedAt: nat): System
    requires BeginTx(s.db, id, cfg.timeout, checkedAt, s.clock).1.Begun?
  {
    var (db, result) := BeginTx(s.db, id, cfg.timeout, checkedAt, s.clock);
    s.(db := db, workers := s.workers[w := Worker(id, result.outbox.channel, s.clock, Started)])
  }

  lemma DoneIsProcessed(cfg: Config, s: System, w: nat, id: Id, checkedAt: nat, sending: Sending, before: nat,
                        after: nat)
    requires w !in s.workers && BeginTx(s.db, id, cfg.timeout, checkedAt, s.clock).1.Begun?
    requires id in s.db.rows && Fits(sending, s.db.rows[id].channel)
    ensures Done(BegunState(cfg, s, w, id, checkedAt), w, sending, before, after) ==
      Processed(cfg, s, id, checkedAt, sending, before, after)
  {
    assert BegunState(cfg, s, w, id, checkedAt).workers - {w} == s.workers;
  }

  lemma BegunTaskRuns(cfg: Config, s: System, w: nat, id: Id, checkedAt: nat, sending: Sending, before: nat, after: nat)
    requires w !in s.workers && id in s.db.rows && Fits(sending, s.db.rows[id].channel)
    requires MayTick(cfg, s, before + after) && before + after <= cfg.taskLimit
    requires BeginTx(s.db, id, cfg.timeout, checkedAt, s.clock).1.Begun?
    ensures Run(cfg, BegunState(cfg, s, w, id, checkedAt), TaskSteps(sending, w, before, after)) ==
      Processed(cfg, s, id, checkedAt, sending, before, after)
  {
    var begun := BegunState(cfg, s, w, id, checkedAt);
    assert Ready(begun, w, sending) && MayTick(cfg, begun, before + after);
    TaskRuns(cfg, begun, w, sending, before, after);
    DoneIsProcessed(cfg, s, w, id, checkedAt, sending, before, after);
  }

  /** From any state, for every behaviour of the handler and whatever time it takes within its limit:
      the begin step and the worker's own steps lead exactly to the tables that
      process_notification_outbox leaves, and nothing but the clock changes besides. */
  lemma {:induction false} UndisturbedTaskIsRun(cfg: Config, s: System, w: nat, id: Id, checkedAt: nat,
                                                sending: Sending,
                                                before: nat, after: nat)
    requires MayBegin(cfg, s, w, id, checkedAt) && (id in s.db.rows ==> Fits(sending, s.db.rows[id].channel))
    requires MayTick(cfg, s, before + after) && before + after <= cfg.taskLimit
    ensures Run(cfg, s, [Begin(w, id, checkedAt)] + TaskSteps(sending, w, before, after)) ==
      Processed(cfg, s, id, checkedAt, sending, before, after)
  {
    RunCons(cfg, s, Begin(w, id, checkedAt), TaskSteps(sending, w, before, after));
    BeginRuns(cfg, s, w, id, checkedAt);
    var (db, result) := BeginTx(s.db, id, cfg.timeout, checkedAt, s.clock);
    if result.Begun? {
      BegunTaskRuns(cfg, s, w, id, checkedAt, sending, before, after);
    } else {
      NotBegun(cfg, s.(db := db), w, sending, before, after);
    }
  }

  // ---------- reaper passes and feedback batches ----------

  function ReapSteps(ids: seq<Id>, cutoff: int): seq<Step> {
    seq(|ids|, i requires 0 <= i < |ids| => ReapProcessing(ids[i], cutoff))
  }

  /** The processing loop of the reaper leads to the tables that its rows' reaper steps lead to. */
  lemma {:induction false} ReaperLoopIsRun(cfg: Config, s: System, queue: seq<Id>, ids: seq<Id>, cutoff: int)
    requires cutoff <= s.clock - cfg.timeout && !ReapAll(s.db, queue, ids, cutoff, cfg.maxAttempts, s.clock).missing
    ensures Run(cfg, s, ReapSteps(ids, cutoff)) ==
      s.(db := ReapAll(s.db, queue, ids, cutoff, cfg.maxAttempts, s.clock).tables)
  {
    if ids != [] {
      var n := |ids| - 1;
      assert ReapSteps(ids, cutoff) == ReapSteps(ids[..n], cutoff) + [ReapProcessing(ids[n], cutoff)];
      ReaperLoopIsRun(cfg, s, queue, ids[..n], cutoff);
      RunSnoc(cfg, s, ReapSteps(ids[..n], cutoff), ReapProcessing(ids[n], cutoff));
      ReapStepRuns(cfg, Run(cfg, s, ReapSteps(ids[..n], cutoff)), ids[n], cutoff);
    }
  }

  lemma ReapStepRuns(cfg: Config, s: System, id: Id, cutoff: int)
    requires cutoff <= s.clock - cfg.timeout
    ensures Apply(cfg, s, ReapProcessing(id, cutoff)) == s.(db := ReapTx(s.db, id, cutoff, cfg.maxAttempts, s.clock).0)
  {
    assert Apply(cfg, s, ReapProcessing(id, cutoff)) == ApplyRow(cfg, s, ReapProcessing(id, cutoff));
  }

  /** An entry that is about no outbox row is a step without effect. */
  function FeedbackStep(f: Feedback): Step {
    if Addressee(f).None? then Tick(0)
    else
      match f
      case Acked(_, _) => Ack(Addressee(f).value)
      case Refused(_, _, _) => Refuse(Addressee(f).value, ErrorText(f))
      case TimedOut(id) => ReapDelivering(id)
  }

  function FeedbackSteps(entries: seq<Feedback>): seq<Step> {
    seq(|entries|, i requires 0 <= i < |entries| => FeedbackStep(entries[i]))
  }

  lemma FeedbackStepRuns(cfg: Config, s: System, f: Feedback)
    requires !FeedbackTx(s.db, f, s.clock).1.Missing?
    ensures var t := Apply(cfg, s, FeedbackStep(f)); t == s.(db := FeedbackTx(s.db, f, s.clock).0, acked := t.acked)
  {
    if Addressee(f).Some? {
      assert Apply(cfg, s, FeedbackStep(f)) == ApplyRow(cfg, s, FeedbackStep(f));
    }
  }

  /** A batch of feedback entries, or a pass of the delivery reaper, leads to the tables that its
      entries' steps lead to, and concerns no task. */
  lemma {:induction false} FeedbackBatchIsRun(cfg: Config, s: System, entries: seq<Feedback>)
    requires !Consume(s.db, entries, s.clock).aborted
    ensures var t := Run(cfg, s, FeedbackSteps(entries));
      t == s.(db := Consume(s.db, entries, s.clock).tables, acked := t.acked)
  {
    if entries != [] {
      var n := |entries| - 1;
      FeedbackStepsSnoc(entries);
      FeedbackBatchIsRun(cfg, s, entries[..n]);
      var before := Run(cfg, s, FeedbackSteps(entries[..n]));
      RunSnoc(cfg, s, FeedbackSteps(entries[..n]), FeedbackStep(entries[n]));
      FeedbackStepRuns(cfg, before, entries[n]);
    }
  }

  lemma FeedbackStepsSnoc(entries: seq<Feedback>)
    requires entries != []
    ensures FeedbackSteps(entries) == FeedbackSteps(entries[..|entries| - 1]) + [FeedbackStep(entries[|entries| - 1])]
  {}

  // ---------- creation ----------

  /** The creation step adds the row that the creating method inserts, stamped with the clock. */
  lemma CreationIsStep(cfg: Config, s: System, channel: Channel, kind: string, target: Option<Target>)
    ensures var t := Apply(cfg, s, Create(channel, kind, target));
      var row := Row(channel, kind, target, Pending, 0, None, None, None, s.clock, s.clock);
      t == if Conflicts(s.db.rows, s.nextId, row) then s
        else s.(db := s.db.(rows := s.db.rows[s.nextId := row]), nextId := s.nextId + 1)
  {}

  // ---------- cleanup ----------

  function SelectSteps(ids: seq<Id>, sentCutoff: int, failedCutoff: int): seq<Step> {
    seq(|ids|, i requires 0 <= i < |ids| => SelectOld(ids[i], sentCutoff, failedCutoff))
  }

  function DeleteSteps(ids: seq<Id>): seq<Step> {
    seq(|ids|, i requires 0 <= i < |ids| => DeleteOld(ids[i]))
  }

  function Elements(ids: seq<Id>): set<Id> {
    set id | id in ids
  }

  lemma {:induction false} SelectRuns(cfg: Config, s: System, ids: seq<Id>, sentCutoff: int, failedCutoff: int)
    requires forall id :: id in ids ==> id in s.db.rows && Expired(s.db.rows[id], sentCutoff, failedCutoff)
    ensures Run(cfg, s, SelectSteps(ids, sentCutoff, failedCutoff)) == s.(selected := s.selected + Elements(ids))
  {
    if ids == [] {
      assert s.selected + Elements(ids) == s.selected;
    } else {
      var n := |ids| - 1;
      var step := SelectOld(ids[n], sentCutoff, failedCutoff);
      assert SelectSteps(ids, sentCutoff, failedCutoff) == SelectSteps(ids[..n], sentCutoff, failedCutoff) + [step];
      SelectRuns(cfg, s, ids[..n], sentCutoff, failedCutoff);
      RunSnoc(cfg, s, SelectSteps(ids[..n], sentCutoff, failedCutoff), step);
      var before := s.(selected := s.selected + Elements(ids[..n]));
      assert Apply(cfg, before, step) == ApplyRow(cfg, before, step);
      ElementsSnoc(ids);
      assert s.selected + Elements(ids) == s.selected + Elements(ids[..n]) + {ids[n]};
    }
  }

  lemma ElementsSnoc(ids: seq<Id>)
    requires ids != []
    ensures Elements(ids) == Elements(ids[..|ids| - 1]) + {ids[|ids| - 1]}
  {
    assert forall id :: id in ids <==> id in ids[..|ids| - 1] || id == ids[|ids| - 1];
  }

  lemma {:induction false} DeleteRuns(cfg: Config, s: System, ids: seq<Id>)
    requires Ascending(ids) && Elements(ids) <= s.selected
    ensures Run(cfg, s, DeleteSteps(ids)) ==
      s.(db := Deleted(s.db, Elements(ids)), selected := s.selected - Elements(ids))
  {
    if ids == [] {
      DeletedNone(s.db);
      assert s.selected - Elements(ids) == s.selected;
    } else {
      var n := |ids| - 1;
      assert DeleteSteps(ids) == DeleteSteps(ids[..n]) + [DeleteOld(ids[n])];
      ElementsSnoc(ids);
      DeleteRuns(cfg, s, ids[..n]);
      RunSnoc(cfg, s, DeleteSteps(ids[..n]), DeleteOld(ids[n]));
      var before := s.(db := Deleted(s.db, Elements(ids[..n])), selected := s.selected - Elements(ids[..n]));
      assert ids[n] in before.selected;
      assert Apply(cfg, before, DeleteOld(ids[n])) == ApplyRow(cfg, before, DeleteOld(ids[n]));
      DeletedOne(Deleted(s.db, Elements(ids[..n])), ids[n]);
      DeletedTwice(s.db, Elements(ids[..n]), {ids[n]});
      assert s.selected - Elements(ids) == s.selected - Elements(ids[..n]) - {ids[n]};
    }
  }

  lemma DeletedNone(t: Tables)
    ensures Deleted(t, Elements([])) == t
  {
    assert Elements([]) == {} && t.rows - {} == t.rows && DetachedAll(t.logs, {}) == t.logs;
  }

  lemma DeletedOne(t: Tables, id: Id)
    ensures Deleted(t, {id}) == DeleteTx(t, id)
  {
    assert DetachedAll(t.logs, {id}) == Detached(t.logs, id);
  }

  /** A deletion of the cleanup that nobody disturbs leads to the tables that its rows' selections and
      deletions lead to. */
  lemma CleanupIsRun(cfg: Config, s: System, ids: seq<Id>, sentCutoff: int, failedCutoff: int)
    requires Ascending(ids) && Elements(ids) !! s.selected
    requires forall id :: id in ids ==> id in s.db.rows && Expired(s.db.rows[id], sentCutoff, failedCutoff)
    ensures Run(cfg, s, SelectSteps(ids, sentCutoff, failedCutoff) + DeleteSteps(ids)) ==
      s.(db := Deleted(s.db, Elements(ids)))
  {
    RunConcat(cfg, s, SelectSteps(ids, sentCutoff, failedCutoff), DeleteSteps(ids));
    SelectRuns(cfg, s, ids, sentCutoff, failedCutoff);
    DeleteRuns(cfg, s.(selected := s.selected + Elements(ids)), ids);
    assert s.selected + Elements(ids) - Elements(ids) == s.selected;
  }
}
