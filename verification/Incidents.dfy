/** Threshold incidents (apps/core/alerts.py): a failure counter, a deduplicated alert and a recovery
    message, kept in three cache keys of one fingerprint. */
module Incidents {
  import opened Counters
  import opened Wrappers

  datatype Message = Alert(at: nat) | Recovery(at: nat)

  /** How the message route behaves in a call. */
  datatype Route = Unconfigured | Delivers | Raises

  datatype CallResult = Returned(sent: bool) | Raised | ValueError

  datatype Config = Config(threshold: nat, window: nat, dedupeTtl: nat)

  /** counter, dedupe (expiry of the alert key), active: the cache; sent: the messages sent so far. */
  datatype Cache = Cache(counter: Option<Counter>, dedupe: Option<nat>, active: bool, sent: seq<Message>)

  const EMPTY := Cache(None, None, false, [])

  predicate Expired(expiry: Option<nat>, now: nat) {
    expiry.None? || expiry.value <= now
  }

  // ---------- the code ----------

  class IncidentAlerts {
    var counter: Option<Counter>
    var dedupe: Option<nat>
    var active: bool
    var sent: seq<Message>

    ghost function State(): Cache
      reads this
    {
      Cache(counter, dedupe, active, sent)
    }

    /** The key is taken before the message is sent, and stays taken when the send raises. */
    method SendIncidentAlert(dedupeTtl: nat, route: Route, now: nat) returns (result: CallResult)
      modifies this`dedupe, this`sent
      ensures State() == SendAlertTx(old(State()), dedupeTtl, route, now).0
      ensures result == SendAlertTx(old(State()), dedupeTtl, route, now).1
      ensures var due := !route.Unconfigured? && (old(dedupe).None? || old(dedupe).value <= now);
        && (result == Returned(true) <==> due && route.Delivers?) && (result == Raised <==> due && route.Raises?)
        && dedupe == (if due then Some(now + dedupeTtl) else old(dedupe))
        && sent == (if result == Returned(true) then old(sent) + [Alert(now)] else old(sent))
    {
      if route.Unconfigured? {
        return Returned(false);
      }
      if !Expired(dedupe, now) {
        return Returned(false);
      }
      dedupe := Some(now + dedupeTtl);
      if route.Raises? {
        return Raised;
      }
      sent := sent + [Alert(now)];
      result := Returned(true);
    }

    /** The counter is added at addedAt and incremented at now; incrementing a key that has expired in
        between raises. */
    method RecordThresholdIncident(cfg: Config, route: Route, addedAt: nat, now: nat) returns (result: CallResult)
      requires addedAt <= now
      modifies this
      ensures (State(), result) == RecordTx(cfg, old(State()), route, addedAt, now)
      ensures result == ValueError <==> cfg.threshold == 0 || cfg.window == 0
      ensures result == ValueError ==> State() == old(State())
      ensures result != ValueError ==>
        var live := old(counter).Some? && addedAt < old(counter).value.expiresAt;
        var expired := live && old(counter).value.expiresAt <= now;
        var failures := if live then old(counter).value.count + 1 else 1;
        var due := !expired && failures == cfg.threshold && !route.Unconfigured? &&
          (old(dedupe).None? || old(dedupe).value <= now);
        && (result == Returned(true) <==> due && route.Delivers?)
        && (result == Raised <==> expired || (due && route.Raises?))
        && counter == (if expired then old(counter)
          else Some(Counter(failures, if live then old(counter).value.expiresAt else addedAt + cfg.window)))
        && dedupe == (if due then Some(now + cfg.dedupeTtl) else old(dedupe))
        && sent == (if result == Returned(true) then old(sent) + [Alert(now)] else old(sent))
        && active == (old(active) || result == Returned(true))
    {
      if cfg.threshold <= 0 {
        return ValueError;
      }
      if cfg.window <= 0 {
        return ValueError;
      }
      var failures := 1;
      if counter.None? || counter.value.expiresAt <= addedAt {
        counter := Some(Counter(1, addedAt + cfg.window));
      } else if counter.value.expiresAt <= now {
        return Raised;
      } else {
        failures := counter.value.count + 1;
        counter := Some(counter.value.(count := failures));
      }
      if failures != cfg.threshold {
        return Returned(false);
      }
      result := SendIncidentAlert(cfg.dedupeTtl, route, now);
      if result == Returned(true) {
        active := true;
      }
    }

    method ResolveThresholdIncident(hasRecoveryTitle: bool, route: Route, now: nat) returns (result: CallResult)
      modifies this`active, this`sent
      ensures (State(), result) == ResolveTx(old(State()), hasRecoveryTitle, route, now)
      ensures result == ValueError <==> !hasRecoveryTitle
      ensures result == Returned(true) <==> hasRecoveryTitle && old(active) && route.Delivers?
      ensures result == Raised <==> hasRecoveryTitle && old(active) && route.Raises?
      ensures sent == if result == Returned(true) then old(sent) + [Recovery(now)] else old(sent)
      ensures active == (old(active) && result != Returned(true))
    {
      if !hasRecoveryTitle {
        return ValueError;
      }
      if !active {
        return Returned(false);
      }
      if route.Unconfigured? {
        return Returned(false);
      }
      if route.Raises? {
        return Raised;
      }
      sent := sent + [Recovery(now)];
      active := false;
      result := Returned(true);
    }
  }

  function SendAlertTx(c: Cache, dedupeTtl: nat, route: Route, now: nat): (Cache, CallResult) {
    if route.Unconfigured? || !Expired(c.dedupe, now) then (c, Returned(false))
    else if route.Raises? then (c.(dedupe := Some(now + dedupeTtl)), Raised)
    else (c.(dedupe := Some(now + dedupeTtl), sent := c.sent + [Alert(now)]), Returned(true))
  }

  /** The counter expires between the two cache calls. */
  predicate ExpiresBetween(c: Option<Counter>, addedAt: nat, now: nat) {
    Live(c, addedAt) && !Live(c, now)
  }

  function RecordTx(cfg: Config, c: Cache, route: Route, addedAt: nat, now: nat): (Cache, CallResult) {
    if cfg.threshold == 0 || cfg.window == 0 then (c, ValueError)
    else if ExpiresBetween(c.counter, addedAt, now) then (c, Raised)
    else
      var counted := c.(counter := Some(Counted(c.counter, cfg.window, addedAt)));
      if counted.counter.value.count != cfg.threshold then (counted, Returned(false))
      else
        var (alerted, result) := SendAlertTx(counted, cfg.dedupeTtl, route, now);
        (if result == Returned(true) then alerted.(active := true) else alerted, result)
  }

  function ResolveTx(c: Cache, hasRecoveryTitle: bool, route: Route, now: nat): (Cache, CallResult) {
    if !hasRecoveryTitle then (c, ValueError)
    else if !c.active || route.Unconfigured? then (c, Returned(false))
    else if route.Raises? then (c, Raised)
    else (c.(sent := c.sent + [Recovery(now)], active := false), Returned(true))
  }

  // ---------- runs of calls for one fingerprint ----------

  datatype Call = Record(route: Route, addedAt: nat, at: nat) | Resolve(hasRecoveryTitle: bool, route: Route, at: nat)

  function Start(call: Call): nat {
    if call.Record? then call.addedAt else call.at
  }

  function Exec(cfg: Config, calls: seq<Call>): Cache {
    if calls == [] then EMPTY
    else
      var before := Exec(cfg, calls[..|calls| - 1]);
      match calls[|calls| - 1]
      case Record(route, addedAt, at) => RecordTx(cfg, before, route, addedAt, at).0
      case Resolve(title, route, at) => ResolveTx(before, title, route, at).0
  }

  ghost predicate Ordered(calls: seq<Call>) {
    && (forall i :: 0 <= i < |calls| ==> Start(calls[i]) <= calls[i].at)
    && (forall i, j :: 0 <= i < j < |calls| ==> calls[i].at <= Start(calls[j]))
  }

  ghost predicate LastIsAlert(sent: seq<Message>) {
    sent != [] && sent[|sent| - 1].Alert?
  }

  function Alerts(sent: seq<Message>): nat {
    if sent == [] then 0 else Alerts(sent[..|sent| - 1]) + if sent[|sent| - 1].Alert? then 1 else 0
  }

  function Recoveries(sent: seq<Message>): nat {
    if sent == [] then 0 else Recoveries(sent[..|sent| - 1]) + if sent[|sent| - 1].Recovery? then 1 else 0
  }

  /** Every recovery comes right after an alert. */
  ghost predicate RecoveriesAnswerAlerts(sent: seq<Message>) {
    forall i :: 0 <= i < |sent| && sent[i].Recovery? ==> i > 0 && sent[i - 1].Alert?
  }

  /** Alerts are at least the deduplication time apart. */
  ghost predicate AlertsApart(ttl: nat, sent: seq<Message>) {
    forall i, j :: 0 <= i < j < |sent| && sent[i].Alert? && sent[j].Alert? ==> sent[i].at + ttl <= sent[j].at
  }

  ghost predicate Inv(cfg: Config, c: Cache, now: nat) {
    && (c.active <==> LastIsAlert(c.sent))
    && RecoveriesAnswerAlerts(c.sent)
    && AlertsApart(cfg.dedupeTtl, c.sent)
    && (forall i :: 0 <= i < |c.sent| ==> c.sent[i].at <= now)
    && (forall i :: 0 <= i < |c.sent| && c.sent[i].Alert? ==>
      c.dedupe.Some? && c.sent[i].at + cfg.dedupeTtl <= c.dedupe.value)
  }

  lemma LaterKeepsInv(cfg: Config, c: Cache, now: nat, later: nat)
    requires Inv(cfg, c, now) && now <= later
    ensures Inv(cfg, c, later)
  {}

  lemma SendAlertKeepsInv(cfg: Config, c: Cache, route: Route, now: nat)
    requires Inv(cfg, c, now)
    ensures var (after, result) := SendAlertTx(c, cfg.dedupeTtl, route, now);
      Inv(cfg, if result == Returned(true) then after.(active := true) else after, now)
  {
    var (after, result) := SendAlertTx(c, cfg.dedupeTtl, route, now);
    if result == Returned(true) {
      assert forall i :: 0 <= i < |c.sent| ==> after.sent[i] == c.sent[i];
    }
  }

  lemma ResolveKeepsInv(cfg: Config, c: Cache, hasRecoveryTitle: bool, route: Route, now: nat)
    requires Inv(cfg, c, now)
    ensures Inv(cfg, ResolveTx(c, hasRecoveryTitle, route, now).0, now)
  {}

  lemma RecordKeepsInv(cfg: Config, c: Cache, route: Route, addedAt: nat, now: nat)
    requires Inv(cfg, c, now)
    ensures Inv(cfg, RecordTx(cfg, c, route, addedAt, now).0, now)
  {
    SendAlertKeepsInv(cfg, c.(counter := Some(Counted(c.counter, cfg.window, addedAt))), route, now);
  }

  /** After any sequence of calls in time order: the active flag is set exactly when the last message
      sent was an alert, each recovery answers an alert, and alerts keep the deduplication time. */
  lemma {:induction false} IncidentsAlternate(cfg: Config, calls: seq<Call>)
    requires Ordered(calls)
    ensures var c := Exec(cfg, calls); Inv(cfg, c, if calls == [] then 0 else calls[|calls| - 1].at)
  {
    if calls != [] {
      var n := |calls| - 1;
      var before := Exec(cfg, calls[..n]);
      IncidentsAlternate(cfg, calls[..n]);
      LaterKeepsInv(cfg, before, if n == 0 then 0 else calls[n - 1].at, calls[n].at);
      match calls[n]
      case Record(route, addedAt, at) => RecordKeepsInv(cfg, before, route, addedAt, at);
      case Resolve(title, route, at) => ResolveKeepsInv(cfg, before, title, route, at);
    }
  }

  /** In every prefix of the messages recoveries never outnumber alerts. */
  lemma {:induction false} RecoveriesNeverExceedAlerts(sent: seq<Message>, n: nat)
    requires RecoveriesAnswerAlerts(sent) && n <= |sent|
    ensures Recoveries(sent[..n]) + (if LastIsAlert(sent[..n]) then 1 else 0) <= Alerts(sent[..n])
  {
    if n > 0 {
      RecoveriesNeverExceedAlerts(sent, n - 1);
      assert sent[..n][..n - 1] == sent[..n - 1];
    }
  }

  // ---------- one attempt per counter lifetime ----------

  /** The call tries to send an alert, whatever comes of it: it sends one if the route delivers and the
      deduplication key is free. */
  predicate Tries(cfg: Config, c: Cache, call: Call) {
    call.Record? &&
    RecordTx(cfg, c.(dedupe := None), Delivers, call.addedAt, call.at).0.sent == c.sent + [Alert(call.at)]
  }

  /** That is the failure which brings the count of its lifetime to the threshold. */
  lemma TriesAtThreshold(cfg: Config, c: Cache, call: Call)
    ensures Tries(cfg, c, call) <==>
      call.Record? && cfg.threshold > 0 && cfg.window > 0 && !ExpiresBetween(c.counter, call.addedAt, call.at) &&
      cfg.threshold == if c.counter.Some? && call.addedAt < c.counter.value.expiresAt
        then c.counter.value.count + 1 else 1
  {}

  /** The last call of the run tries. */
  predicate Attempts(cfg: Config, calls: seq<Call>) {
    calls != [] && Tries(cfg, Exec(cfg, calls[..|calls| - 1]), calls[|calls| - 1])
  }

  /** Attempts of calls that started at or after a time. */
  function AttemptsSince(cfg: Config, calls: seq<Call>, from: nat): nat {
    if calls == [] then 0
    else
      AttemptsSince(cfg, calls[..|calls| - 1], from) +
      if Start(calls[|calls| - 1]) >= from && Attempts(cfg, calls) then 1 else 0
  }

  /** The counter's lifetime has started by the last call. */
  lemma {:induction false} CounterShape(cfg: Config, calls: seq<Call>)
    requires Ordered(calls)
    ensures var c := Exec(cfg, calls).counter;
      c.Some? ==> cfg.window > 0 && calls != [] && c.value.count >= 1 && cfg.window <= c.value.expiresAt &&
                  c.value.expiresAt - cfg.window <= Start(calls[|calls| - 1])
  {
    if calls != [] {
      CounterShape(cfg, calls[..|calls| - 1]);
      if |calls| > 1 { assert calls[|calls| - 2].at <= Start(calls[|calls| - 1]); }
    }
  }

  /** The calls since the counter started include exactly one attempt if it has reached the threshold. */
  ghost predicate OneAttempt(cfg: Config, calls: seq<Call>, c: Counter) {
    && cfg.window <= c.expiresAt
    && AttemptsSince(cfg, calls, c.expiresAt - cfg.window) == if c.count >= cfg.threshold then 1 else 0
  }

  /** A failure within the counter's lifetime. */
  lemma {:induction false} OneMoreFailure(cfg: Config, before: seq<Call>, call: Call)
    requires cfg.threshold > 0 && cfg.window > 0 && call.Record?
    requires var c := Exec(cfg, before).counter;
      && c.Some? && c.value.expiresAt - cfg.window <= call.addedAt < c.value.expiresAt && call.at < c.value.expiresAt
      && OneAttempt(cfg, before, c.value)
    ensures Exec(cfg, before + [call]).counter.Some?
    ensures OneAttempt(cfg, before + [call], Exec(cfg, before + [call]).counter.value)
  {
    Snoc(before, call);
    TriesAtThreshold(cfg, Exec(cfg, before), call);
  }

  /** A failure that starts a new lifetime. */
  lemma {:induction false} FirstFailure(cfg: Config, before: seq<Call>, call: Call)
    requires cfg.threshold > 0 && cfg.window > 0 && call.Record?
    requires !Live(Exec(cfg, before).counter, call.addedAt)
    requires AttemptsSince(cfg, before, call.addedAt) == 0
    ensures Exec(cfg, before + [call]).counter.Some?
    ensures OneAttempt(cfg, before + [call], Exec(cfg, before + [call]).counter.value)
  {
    Snoc(before, call);
    TriesAtThreshold(cfg, Exec(cfg, before), call);
  }

  lemma Snoc(before: seq<Call>, call: Call)
    ensures (before + [call])[..|before + [call]| - 1] == before && (before + [call])[|before + [call]| - 1] == call
  {}

  /** A call that only resolves, or that raises because the counter has expired. */
  lemma {:induction false} NoFailure(cfg: Config, before: seq<Call>, call: Call)
    requires Exec(cfg, before).counter.Some? && OneAttempt(cfg, before, Exec(cfg, before).counter.value)
    requires call.Resolve? || ExpiresBetween(Exec(cfg, before).counter, call.addedAt, call.at)
    ensures Exec(cfg, before + [call]).counter.Some?
    ensures OneAttempt(cfg, before + [call], Exec(cfg, before + [call]).counter.value)
  {
    Snoc(before, call);
    TriesAtThreshold(cfg, Exec(cfg, before), call);
  }

  lemma OrderedSnoc(before: seq<Call>, call: Call)
    requires Ordered(before + [call])
    ensures Ordered(before) && Start(call) <= call.at && (before != [] ==> before[|before| - 1].at <= Start(call))
  {
    var calls := before + [call];
    assert forall i :: 0 <= i < |before| ==> before[i] == calls[i];
    assert calls[|before|] == call;
  }

  lemma {:induction false} OneMoreCall(cfg: Config, before: seq<Call>, call: Call)
    requires Ordered(before + [call]) && cfg.threshold > 0
    requires var c := Exec(cfg, before).counter; c.Some? ==> OneAttempt(cfg, before, c.value)
    ensures var c := Exec(cfg, before + [call]).counter; c.Some? ==> OneAttempt(cfg, before + [call], c.value)
  {
    Snoc(before, call);
    OrderedSnoc(before, call);
    CounterShape(cfg, before);
    var c := Exec(cfg, before).counter;
    if call.Resolve? || ExpiresBetween(c, call.addedAt, call.at) {
      if c.Some? { NoFailure(cfg, before, call); }
    } else if cfg.window > 0 {
      if Live(c, call.addedAt) {
        OneMoreFailure(cfg, before, call);
      } else {
        FreshLifetime(cfg, before, call.addedAt);
        FirstFailure(cfg, before, call);
      }
    }
  }

  /** Each counter lifetime tries to send exactly one alert once it has reached the threshold, and
      none before. */
  lemma {:induction false} OneAttemptPerLifetime(cfg: Config, calls: seq<Call>)
    requires Ordered(calls) && cfg.threshold > 0
    ensures var c := Exec(cfg, calls).counter; c.Some? ==> OneAttempt(cfg, calls, c.value)
  {
    if calls != [] {
      var before := calls[..|calls| - 1];
      OneAttemptPerLifetime(cfg, before);
      assert before + [calls[|calls| - 1]] == calls;
      OneMoreCall(cfg, before, calls[|calls| - 1]);
    }
  }

  // ---------- one alert per counter lifetime ----------

  /** The last call has sent an alert. */
  predicate AlertSent(cfg: Config, calls: seq<Call>) {
    && calls != [] && calls[|calls| - 1].Record?
    && Exec(cfg, calls).sent == Exec(cfg, calls[..|calls| - 1]).sent + [Alert(calls[|calls| - 1].at)]
  }

  /** Alerts sent by calls that started at or after a time. */
  function AlertsSince(cfg: Config, calls: seq<Call>, from: nat): nat {
    if calls == [] then 0
    else
      AlertsSince(cfg, calls[..|calls| - 1], from) +
      if Start(calls[|calls| - 1]) >= from && AlertSent(cfg, calls) then 1 else 0
  }

  /** Whoever tries finds the route delivering and the deduplication key free. */
  ghost predicate NothingSuppressed(cfg: Config, calls: seq<Call>) {
    calls == [] ||
    var n := |calls| - 1;
    NothingSuppressed(cfg, calls[..n]) &&
    (Attempts(cfg, calls) ==>
      calls[n].route.Delivers? &&
      (Exec(cfg, calls[..n]).dedupe.None? || Exec(cfg, calls[..n]).dedupe.value <= calls[n].at))
  }

  /** An attempt sends its alert, or raises with the route, exactly when the key is free and the route
      configured; nothing else sends one. */
  lemma AttemptTakesEffect(cfg: Config, before: seq<Call>, call: Call)
    requires call.Record?
    ensures var c := Exec(cfg, before); var tries := Attempts(cfg, before + [call]);
      var free := c.dedupe.None? || c.dedupe.value <= call.at;
      && (AlertSent(cfg, before + [call]) <==> tries && free && call.route.Delivers?)
      && (tries && free && call.route.Raises? ==>
        RecordTx(cfg, c, call.route, call.addedAt, call.at).1 == Raised)
      && (!AlertSent(cfg, before + [call]) ==> Exec(cfg, before + [call]).sent == c.sent)
  {
    Snoc(before, call);
    TryTakesEffect(cfg, Exec(cfg, before), call);
  }

  lemma TryTakesEffect(cfg: Config, c: Cache, call: Call)
    requires call.Record?
    ensures var (after, result) := RecordTx(cfg, c, call.route, call.addedAt, call.at);
      var free := c.dedupe.None? || c.dedupe.value <= call.at;
      && (after.sent == c.sent + [Alert(call.at)] <==> Tries(cfg, c, call) && free && call.route.Delivers?)
      && (Tries(cfg, c, call) && free && call.route.Raises? ==> result == Raised)
      && (after.sent == c.sent + [Alert(call.at)] || after.sent == c.sent)
  {
    TriesAtThreshold(cfg, c, call);
    assert |c.sent + [Alert(call.at)]| == |c.sent| + 1;
  }

  lemma {:induction false} AlertsAreAttempts(cfg: Config, calls: seq<Call>, from: nat)
    ensures AlertsSince(cfg, calls, from) <= AttemptsSince(cfg, calls, from)
    ensures NothingSuppressed(cfg, calls) ==> AlertsSince(cfg, calls, from) == AttemptsSince(cfg, calls, from)
  {
    if calls != [] {
      var n := |calls| - 1;
      AlertsAreAttempts(cfg, calls[..n], from);
      assert calls == calls[..n] + [calls[n]];
      if calls[n].Record? { AttemptTakesEffect(cfg, calls[..n], calls[n]); }
    }
  }

  /** Each counter lifetime sends at most one alert, and exactly one, once it has reached the threshold, if
      no attempt meets a taken deduplication key or a route that does not deliver. */
  lemma OneAlertPerLifetime(cfg: Config, calls: seq<Call>)
    requires Ordered(calls) && cfg.threshold > 0 && Exec(cfg, calls).counter.Some?
    ensures var c := Exec(cfg, calls).counter.value;
      && cfg.window <= c.expiresAt && var alerts := AlertsSince(cfg, calls, c.expiresAt - cfg.window);
      && alerts <= 1 && (c.count < cfg.threshold ==> alerts == 0)
      && (NothingSuppressed(cfg, calls) && c.count >= cfg.threshold ==> alerts == 1)
  {
    var c := Exec(cfg, calls).counter.value;
    OneAttemptPerLifetime(cfg, calls);
    AlertsAreAttempts(cfg, calls, c.expiresAt - cfg.window);
  }

  /** While the key is absent or expired nothing has been attempted since its expiry. */
  lemma {:induction false} FreshLifetime(cfg: Config, calls: seq<Call>, from: nat)
    requires Ordered(calls) && cfg.threshold > 0 && !Live(Exec(cfg, calls).counter, from)
    ensures AttemptsSince(cfg, calls, from) == 0
  {
    if calls != [] {
      var n := |calls| - 1;
      assert calls == calls[..n] + [calls[n]];
      OrderedSnoc(calls[..n], calls[n]);
      FreshBefore(cfg, calls[..n], calls[n], from);
      FreshLifetime(cfg, calls[..n], from);
    }
  }

  lemma {:induction false} FreshBefore(cfg: Config, before: seq<Call>, call: Call, from: nat)
    requires cfg.threshold > 0 && Start(call) <= call.at && !Live(Exec(cfg, before + [call]).counter, from)
    ensures !Live(Exec(cfg, before).counter, from)
    ensures Start(call) >= from ==> !Attempts(cfg, before + [call])
  {
    Snoc(before, call);
    TriesAtThreshold(cfg, Exec(cfg, before), call);
  }
}
