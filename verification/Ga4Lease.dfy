/** GA4 purchase events (apps/core/analytics.py): a cache lock with a time to live and no owner
    guards the section that rechecks, posts and marks the order. */
module Ga4Lease {
  import opened Wrappers

  const LOCK_TTL: nat := 30

  datatype Order = Order(paid: bool, consent: bool, sentAt: Option<nat>)

  datatype SkipReason = NotPaid | AlreadySent | NoConsent

  function Skip(order: Order): Option<SkipReason> {
    if !order.paid then Some(NotPaid)
    else if order.sentAt.Some? then Some(AlreadySent)
    else if !order.consent then Some(NoConsent)
    else None
  }

  /** cache.add: the key is absent or its time to live has run out. */
  predicate Free(lock: Option<nat>, now: nat) {
    lock.None? || lock.value <= now
  }

  // ---------- the code ----------

  datatype Post = Accepted | Fails

  datatype Outcome = NotConfigured | OrderNotFound | Skipped(reason: SkipReason) | LockNotAcquired | Sent | Raised

  class PurchaseEvents {
    var order: Option<Order>
    var lock: Option<nat>   // expiry of the lock key

    /** send_ga4_purchase_event_for_order when nobody else touches the order meanwhile. */
    method SendPurchaseEvent(enabled: bool, lockedAt: nat, post: Post, markedAt: nat) returns (outcome: Outcome)
      modifies this`order, this`lock
      ensures outcome.NotConfigured? <==> !enabled
      ensures outcome.OrderNotFound? <==> enabled && old(order).None?
      ensures enabled && old(order).Some? ==>
        var o := old(order).value;
        var free := old(lock).None? || old(lock).value <= lockedAt;
        && (outcome == Skipped(NotPaid) <==> !o.paid)
        && (outcome == Skipped(AlreadySent) <==> o.paid && o.sentAt.Some?)
        && (outcome == Skipped(NoConsent) <==> o.paid && o.sentAt.None? && !o.consent)
        && (outcome.LockNotAcquired? <==> o.paid && o.sentAt.None? && o.consent && !free)
        && (outcome.Sent? <==> o.paid && o.sentAt.None? && o.consent && free && post.Accepted?)
        && (outcome.Raised? <==> o.paid && o.sentAt.None? && o.consent && free && post.Fails?)
      ensures order == if outcome.Sent? then Some(old(order).value.(sentAt := Some(markedAt))) else old(order)
      ensures lock == if outcome.Sent? || outcome.Raised? then None else old(lock)
    {
      if !enabled {
        return NotConfigured;
      }
      if order.None? {
        return OrderNotFound;
      }
      var reason := Skip(order.value);
      if reason.Some? {
        return Skipped(reason.value);
      }
      if !Free(lock, lockedAt) {
        return LockNotAcquired;
      }
      lock := Some(lockedAt + LOCK_TTL);
      if post.Accepted? {
        if order.value.sentAt.None? {
          order := Some(order.value.(sentAt := Some(markedAt)));
        }
        outcome := Sent;
      } else {
        outcome := Raised;
      }
      lock := None;
    }
  }

  // ---------- many tasks for one order ----------

  /** sectionLimit: how long a task can stay between taking and releasing the lock; ambiguous: a
      request that raised may have been accepted; lostMark: a task can die or fail between the
      acceptance and the update. */
  datatype Config = Config(sectionLimit: nat, ambiguous: bool, lostMark: bool)

  datatype Phase = Cleared | Locked | Rechecked | Posted | Releasing

  datatype Task = Task(lockedAt: nat, phase: Phase)

  datatype System = System(clock: nat, order: Order, lock: Option<nat>, tasks: map<nat, Task>, accepted: nat,
                           writes: nat)

  datatype Step =
    | Tick(d: nat)
    | SetOrder(paid: bool, consent: bool)
    | Check(p: nat)
    | Acquire(p: nat)
    | Recheck(p: nat)
    | Accept(p: nat)
    | Refuse(p: nat)
    | AcceptButRaise(p: nat)
    | Mark(p: nat)
    | MarkFails(p: nat)
    | Release(p: nat)
    | Crash(p: nat)

  const INITIAL := System(0, Order(false, false, None), None, map[], 0, 0)

  predicate InSection(t: Task) {
    !t.phase.Cleared?
  }

  function Moved(s: System, p: nat, phase: Phase): System
    requires p in s.tasks
  {
    s.(tasks := s.tasks[p := s.tasks[p].(phase := phase)])
  }

  function Apply(cfg: Config, s: System, step: Step): System {
    match step
    case Tick(d) =>
      if forall p :: p in s.tasks && InSection(s.tasks[p]) ==> s.clock + d <= s.tasks[p].lockedAt + cfg.sectionLimit
      then s.(clock := s.clock + d) else s
    case SetOrder(paid, consent) => s.(order := s.order.(paid := paid, consent := consent))
    case Check(p) =>
      if p !in s.tasks && Skip(s.order).None? then s.(tasks := s.tasks[p := Task(0, Cleared)]) else s
    case Acquire(p) =>
      if p !in s.tasks || !s.tasks[p].phase.Cleared? then s
      else if Free(s.lock, s.clock)
      then s.(lock := Some(s.clock + LOCK_TTL), tasks := s.tasks[p := Task(s.clock, Locked)])
      else s.(tasks := s.tasks - {p})
    case Recheck(p) =>
      if p in s.tasks && s.tasks[p].phase.Locked?
      then Moved(s, p, if s.order.sentAt.Some? then Releasing else Rechecked) else s
    case Accept(p) =>
      if p in s.tasks && s.tasks[p].phase.Rechecked? then Moved(s, p, Posted).(accepted := s.accepted + 1) else s
    case Refuse(p) =>
      if p in s.tasks && s.tasks[p].phase.Rechecked? then Moved(s, p, Releasing) else s
    case AcceptButRaise(p) =>
      if cfg.ambiguous && p in s.tasks && s.tasks[p].phase.Rechecked?
      then Moved(s, p, Releasing).(accepted := s.accepted + 1) else s
    case Mark(p) =>
      if p in s.tasks && s.tasks[p].phase.Posted? then
        var marked := if s.order.sentAt.None?
          then s.(order := s.order.(sentAt := Some(s.clock)), writes := s.writes + 1) else s;
        Moved(marked, p, Releasing)
      else s
    case MarkFails(p) =>
      if cfg.lostMark && p in s.tasks && s.tasks[p].phase.Posted? then Moved(s, p, Releasing) else s
    case Release(p) =>
      if p in s.tasks && s.tasks[p].phase.Releasing? then s.(lock := None, tasks := s.tasks - {p}) else s
    case Crash(p) =>
      if p in s.tasks && (cfg.lostMark || !s.tasks[p].phase.Posted?) then s.(tasks := s.tasks - {p}) else s
  }

  function Exec(cfg: Config, run: seq<Step>): System {
    if run == [] then INITIAL else Apply(cfg, Exec(cfg, run[..|run| - 1]), run[|run| - 1])
  }

  lemma ExecSnoc(cfg: Config, run: seq<Step>, step: Step)
    ensures Exec(cfg, run + [step]) == Apply(cfg, Exec(cfg, run), step)
  {
    assert (run + [step])[..|run|] == run;
  }

  /** Google has accepted at most one purchase event and the order was marked at most once. */
  ghost predicate AtMostOnce(s: System) {
    s.accepted <= 1 && s.writes <= 1
  }

  /** A task in the section holds the lock alone: the key that it will delete is its own. */
  ghost predicate OwnLock(s: System) {
    && (forall p :: p in s.tasks && InSection(s.tasks[p]) ==> s.lock == Some(s.tasks[p].lockedAt + LOCK_TTL))
    && (forall p, q :: p in s.tasks && q in s.tasks && InSection(s.tasks[p]) && InSection(s.tasks[q]) ==> p == q)
  }

  ghost predicate Lease(cfg: Config, s: System) {
    && OwnLock(s)
    && (forall p :: p in s.tasks && InSection(s.tasks[p]) ==>
      s.tasks[p].lockedAt <= s.clock <= s.tasks[p].lockedAt + cfg.sectionLimit)
  }

  ghost predicate Counted(s: System) {
    && s.writes == (if s.order.sentAt.Some? then 1 else 0)
    && (forall p :: p in s.tasks && s.tasks[p].phase.Posted? ==> s.accepted == 1 && s.order.sentAt.None?)
    && (forall p :: p in s.tasks && s.tasks[p].phase.Rechecked? ==> s.accepted == 0 && s.order.sentAt.None?)
    && ((forall p :: p in s.tasks ==> !s.tasks[p].phase.Posted?) ==>
      s.accepted == if s.order.sentAt.Some? then 1 else 0)
  }

  /** While a task is in the section nobody else can take the lock. */
  lemma AcquireKeepsLease(cfg: Config, s: System, p: nat)
    requires cfg.sectionLimit < LOCK_TTL && Lease(cfg, s)
    ensures Lease(cfg, Apply(cfg, s, Acquire(p)))
  {
    if Free(s.lock, s.clock) {
      assert forall q :: q in s.tasks ==> !InSection(s.tasks[q]);
    }
  }

  /** The step changes no other task than its own. */
  ghost predicate OthersKept(s: System, t: System, p: nat) {
    forall q :: q != p ==> (q in t.tasks <==> q in s.tasks) && (q in s.tasks ==> t.tasks[q] == s.tasks[q])
  }

  /** A task of the section moves on or leaves it. */
  ghost predicate SectionStep(s: System, t: System, p: nat) {
    && p in s.tasks && InSection(s.tasks[p])
    && OthersKept(s, t, p) && t.clock == s.clock
    && (p in t.tasks ==> InSection(t.tasks[p]) && t.tasks[p].lockedAt == s.tasks[p].lockedAt && t.lock == s.lock)
  }

  lemma SectionStepKeepsLease(cfg: Config, s: System, t: System, p: nat)
    requires Lease(cfg, s) && SectionStep(s, t, p)
    ensures Lease(cfg, t)
  {
    assert forall q :: q in s.tasks && q != p ==> !InSection(s.tasks[q]);
    assert forall q :: q in t.tasks && q != p ==> !InSection(t.tasks[q]);
  }

  predicate ActsInSection(step: Step) {
    step.Recheck? || step.Accept? || step.Refuse? || step.AcceptButRaise? || step.Mark? || step.MarkFails? ||
      step.Release?
  }

  lemma IsSectionStep(cfg: Config, s: System, step: Step)
    requires ActsInSection(step) && Apply(cfg, s, step) != s
    ensures SectionStep(s, Apply(cfg, s, step), step.p)
  {}

  lemma OutsideStepKeepsLease(cfg: Config, s: System, step: Step)
    requires Lease(cfg, s) && (step.Tick? || step.SetOrder? || step.Check? || step.Crash?)
    ensures Lease(cfg, Apply(cfg, s, step))
  {}

  lemma StepKeepsLease(cfg: Config, s: System, step: Step)
    requires cfg.sectionLimit < LOCK_TTL && Lease(cfg, s)
    ensures Lease(cfg, Apply(cfg, s, step))
  {
    if step.Acquire? {
      AcquireKeepsLease(cfg, s, step.p);
    } else if !ActsInSection(step) {
      OutsideStepKeepsLease(cfg, s, step);
    } else if Apply(cfg, s, step) != s {
      IsSectionStep(cfg, s, step);
      SectionStepKeepsLease(cfg, s, Apply(cfg, s, step), step.p);
    }
  }

  /** In a section there is nobody else posting. */
  lemma SectionStepKeepsCount(cfg: Config, s: System, step: Step)
    requires !cfg.ambiguous && !cfg.lostMark && Lease(cfg, s) && Counted(s)
    requires ActsInSection(step) && Apply(cfg, s, step) != s
    ensures Counted(Apply(cfg, s, step))
  {
    var t := Apply(cfg, s, step);
    IsSectionStep(cfg, s, step);
    assert forall q :: q in s.tasks && q != step.p ==> !InSection(s.tasks[q]);
    assert forall q :: q in t.tasks && q != step.p ==> !InSection(t.tasks[q]);
    if step.p in t.tasks {
      assert Counted(t) <==> OneTaskCounted(t, t.tasks[step.p].phase);
    }
    assert OneTaskCounted(s, s.tasks[step.p].phase);
  }

  /** What Counted says when one task is in the section. */
  ghost predicate OneTaskCounted(s: System, phase: Phase) {
    && s.writes == (if s.order.sentAt.Some? then 1 else 0)
    && (phase.Posted? ==> s.accepted == 1 && s.order.sentAt.None?)
    && (phase.Rechecked? ==> s.accepted == 0 && s.order.sentAt.None?)
    && (!phase.Posted? ==> s.accepted == if s.order.sentAt.Some? then 1 else 0)
  }

  lemma OutsideStepKeepsCount(cfg: Config, s: System, step: Step)
    requires !cfg.lostMark && Counted(s) && !ActsInSection(step)
    ensures Counted(Apply(cfg, s, step))
  {
    var t := Apply(cfg, s, step);
    if step.Check? || step.Acquire? || step.Crash? {
      assert OthersKept(s, t, step.p);
    }
  }

  lemma StepKeepsCount(cfg: Config, s: System, step: Step)
    requires !cfg.ambiguous && !cfg.lostMark && Lease(cfg, s) && Counted(s)
    ensures Counted(Apply(cfg, s, step))
  {
    if !ActsInSection(step) {
      OutsideStepKeepsCount(cfg, s, step);
    } else if Apply(cfg, s, step) != s {
      SectionStepKeepsCount(cfg, s, step);
    }
  }

  lemma {:induction false} ReachableLease(cfg: Config, run: seq<Step>)
    requires cfg.sectionLimit < LOCK_TTL
    ensures Lease(cfg, Exec(cfg, run))
    ensures !cfg.ambiguous && !cfg.lostMark ==> Counted(Exec(cfg, run))
  {
    if run != [] {
      var before := run[..|run| - 1];
      ReachableLease(cfg, before);
      StepKeepsLease(cfg, Exec(cfg, before), run[|run| - 1]);
      if !cfg.ambiguous && !cfg.lostMark {
        StepKeepsCount(cfg, Exec(cfg, before), run[|run| - 1]);
      }
    }
  }

  // ---------- the exact conditions ----------

  const READY := System(0, Order(true, true, None), None, map[], 0, 0)

  /** One task goes through the section up to its request. */
  lemma EnterSection(cfg: Config, run: seq<Step>, p: nat) returns (longer: seq<Step>)
    requires var s := Exec(cfg, run); p !in s.tasks && Skip(s.order).None? && Free(s.lock, s.clock)
    ensures var s := Exec(cfg, run);
      Exec(cfg, longer) == s.(lock := Some(s.clock + LOCK_TTL), tasks := s.tasks[p := Task(s.clock, Rechecked)])
  {
    var s := Exec(cfg, run);
    ExecSnoc(cfg, run, Check(p));
    ExecSnoc(cfg, run + [Check(p)], Acquire(p));
    ExecSnoc(cfg, run + [Check(p)] + [Acquire(p)], Recheck(p));
    longer := run + [Check(p)] + [Acquire(p)] + [Recheck(p)];
    var cleared := Apply(cfg, s, Check(p));
    var locked := Apply(cfg, cleared, Acquire(p));
    assert locked == s.(lock := Some(s.clock + LOCK_TTL), tasks := s.tasks[p := Task(s.clock, Locked)]);
    assert Apply(cfg, locked, Recheck(p)).tasks == s.tasks[p := Task(s.clock, Rechecked)];
  }

  /** A task that nobody disturbs, on a paid order with consent that is not marked yet, sends the event
      once, marks the order and leaves no lock. */
  lemma LoneTaskSends(cfg: Config, run: seq<Step>, p: nat) returns (longer: seq<Step>)
    requires var s := Exec(cfg, run);
      && p !in s.tasks && s.order.paid && s.order.sentAt.None? && s.order.consent
      && (s.lock.None? || s.lock.value <= s.clock)
    ensures var s := Exec(cfg, run);
      Exec(cfg, longer) == s.(order := s.order.(sentAt := Some(s.clock)), lock := None,
        accepted := s.accepted + 1, writes := s.writes + 1)
  {
    var s := Exec(cfg, run);
    var entered := EnterSection(cfg, run, p);
    longer := entered + [Accept(p)] + [Mark(p)] + [Release(p)];
    ExecSnoc(cfg, entered, Accept(p));
    ExecSnoc(cfg, entered + [Accept(p)], Mark(p));
    ExecSnoc(cfg, entered + [Accept(p)] + [Mark(p)], Release(p));
    assert s.tasks[p := Task(s.clock, Releasing)] - {p} == s.tasks;
    assert Exec(cfg, entered + [Accept(p)] + [Mark(p)]).tasks == s.tasks[p := Task(s.clock, Releasing)];
  }

  lemma StartReady(cfg: Config)
    ensures Exec(cfg, [SetOrder(true, true)]) == READY
  {
    ExecSnoc(cfg, [], SetOrder(true, true));
    assert [] + [SetOrder(true, true)] == [SetOrder(true, true)];
  }

  /** The lock runs out under a task in its section, and a second one enters. */
  lemma OverlapIsReachable(cfg: Config) returns (run: seq<Step>)
    requires cfg.sectionLimit >= LOCK_TTL
    ensures Exec(cfg, run) == READY.(clock := LOCK_TTL, lock := Some(2 * LOCK_TTL),
                                     tasks := map[0 := Task(0, Rechecked), 1 := Task(LOCK_TTL, Rechecked)])
  {
    StartReady(cfg);
    var first := EnterSection(cfg, [SetOrder(true, true)], 0);
    ExecSnoc(cfg, first, Tick(LOCK_TTL));
    var second := EnterSection(cfg, first + [Tick(LOCK_TTL)], 1);
    run := second;
  }

  lemma TwoAcceptsOnOverlap(cfg: Config) returns (run: seq<Step>)
    requires cfg.sectionLimit >= LOCK_TTL
    ensures !AtMostOnce(Exec(cfg, run))
  {
    var overlap := OverlapIsReachable(cfg);
    ExecSnoc(cfg, overlap, Accept(0));
    ExecSnoc(cfg, overlap + [Accept(0)], Accept(1));
    run := overlap + [Accept(0)] + [Accept(1)];
  }

  lemma TwoAcceptsOnAmbiguity(cfg: Config) returns (run: seq<Step>)
    requires cfg.ambiguous
    ensures !AtMostOnce(Exec(cfg, run))
  {
    StartReady(cfg);
    var first := EnterSection(cfg, [SetOrder(true, true)], 0);
    ExecSnoc(cfg, first, AcceptButRaise(0));
    ExecSnoc(cfg, first + [AcceptButRaise(0)], Release(0));
    var second := EnterSection(cfg, first + [AcceptButRaise(0)] + [Release(0)], 1);
    ExecSnoc(cfg, second, Accept(1));
    run := second + [Accept(1)];
  }

  lemma TwoAcceptsOnLostMark(cfg: Config) returns (run: seq<Step>)
    requires cfg.lostMark
    ensures !AtMostOnce(Exec(cfg, run))
  {
    StartReady(cfg);
    var first := EnterSection(cfg, [SetOrder(true, true)], 0);
    ExecSnoc(cfg, first, Accept(0));
    ExecSnoc(cfg, first + [Accept(0)], MarkFails(0));
    ExecSnoc(cfg, first + [Accept(0)] + [MarkFails(0)], Release(0));
    var second := EnterSection(cfg, first + [Accept(0)] + [MarkFails(0)] + [Release(0)], 1);
    ExecSnoc(cfg, second, Accept(1));
    run := second + [Accept(1)];
  }

  /** Over all runs of any number of tasks at most one purchase event is accepted per order, if and
      only if every section ends before the lock expires, a raised request was not accepted and no
      task is lost between the acceptance and the update. */
  lemma AtMostOnceIff(cfg: Config)
    ensures (forall run :: AtMostOnce(Exec(cfg, run))) <==>
      cfg.sectionLimit < LOCK_TTL && !cfg.ambiguous && !cfg.lostMark
  {
    if cfg.ambiguous {
      var run := TwoAcceptsOnAmbiguity(cfg);
    } else if cfg.lostMark {
      var run := TwoAcceptsOnLostMark(cfg);
    } else if cfg.sectionLimit >= LOCK_TTL {
      var run := TwoAcceptsOnOverlap(cfg);
    } else {
      forall run ensures AtMostOnce(Exec(cfg, run)) {
        ReachableLease(cfg, run);
      }
    }
  }

  /** The deletion of the lock by this task removes no lock but its own. */
  ghost predicate ReleasesOwn(cfg: Config, s: System, p: nat) {
    p in s.tasks && s.tasks[p].phase.Releasing? && s.lock.Some? && Apply(cfg, s, Release(p)).lock.None? ==>
      s.lock == Some(s.tasks[p].lockedAt + LOCK_TTL)
  }

  /** Over all runs the delete without owner check removes only the deleter's own lock, if and only
      if every section ends before the lock expires. */
  lemma OwnLockIff(cfg: Config)
    ensures (forall run, p :: ReleasesOwn(cfg, Exec(cfg, run), p)) <==> cfg.sectionLimit < LOCK_TTL
  {
    if cfg.sectionLimit < LOCK_TTL {
      forall run, p ensures ReleasesOwn(cfg, Exec(cfg, run), p) {
        ReachableLease(cfg, run);
      }
    } else {
      var run := ForeignLockDeleted(cfg);
      assert !ReleasesOwn(cfg, Exec(cfg, run), 0);
    }
  }

  /** A task that is still in its section after its lock has run out deletes the lock, still live, of
      the next one. */
  lemma ForeignLockDeleted(cfg: Config) returns (run: seq<Step>)
    requires cfg.sectionLimit >= LOCK_TTL
    ensures var s := Exec(cfg, run);
      && !ReleasesOwn(cfg, s, 0) && !Free(s.lock, s.clock)
      && 1 in s.tasks && InSection(s.tasks[1]) && s.lock == Some(s.tasks[1].lockedAt + LOCK_TTL)
  {
    var overlap := OverlapIsReachable(cfg);
    ExecSnoc(cfg, overlap, Refuse(0));
    run := overlap + [Refuse(0)];
    var s := Exec(cfg, run);
    assert s.tasks[0] == Task(0, Releasing) && s.tasks[1] == Task(LOCK_TTL, Rechecked);
    assert Apply(cfg, s, Release(0)).lock.None?;
  }
}
