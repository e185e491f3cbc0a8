/** Download grants (apps/access, apps/custom_games): a counter bounded by max_downloads, taken by a
    conditional update before the URL is presigned and given back when presigning fails. A custom
    game token is a grant that is never revoked and never granted again. */
module DownloadSlots {
  import opened Wrappers

  datatype Grant = Grant(tokenHash: string, expiresAt: nat, lastUsedAt: Option<nat>, downloadsCount: nat,
                         maxDownloads: nat, revokedAt: Option<nat>)

  predicate IsActive(g: Grant, now: nat) {
    now < g.expiresAt && g.downloadsCount < g.maxDownloads && g.revokedAt.None?
  }

  /** The conditional update of a mark, and whether it updated the row. */
  function MarkTx(g: Grant, now: nat): (Grant, bool) {
    if IsActive(g, now) then (g.(downloadsCount := g.downloadsCount + 1, lastUsedAt := Some(now)), true) else (g, false)
  }

  function ReleaseTx(g: Grant): (Grant, bool) {
    if g.downloadsCount > 0 then (g.(downloadsCount := g.downloadsCount - 1), true) else (g, false)
  }

  /** update_or_create on an existing row: a new token and a counter back at zero. */
  function RegrantTx(tokenHash: string, expiresAt: nat, maxDownloads: nat): Grant {
    Grant(tokenHash, expiresAt, None, 0, maxDownloads, None)
  }

  // ---------- the code ----------

  datatype Presign = Url(url: string) | UrlError

  datatype Response = Redirect(url: string) | Invalid(reason: string, status: int)

  class DownloadGrant {
    var tokenHash: string
    var expiresAt: nat
    var lastUsedAt: Option<nat>
    var downloadsCount: nat
    var maxDownloads: nat
    var revokedAt: Option<nat>

    ghost function Row(): Grant
      reads this
    {
      Grant(tokenHash, expiresAt, lastUsedAt, downloadsCount, maxDownloads, revokedAt)
    }

    constructor (tokenHash: string, expiresAt: nat, maxDownloads: nat)
      ensures Row() == Grant(tokenHash, expiresAt, None, 0, maxDownloads, None)
    {
      this.tokenHash, this.expiresAt, this.maxDownloads := tokenHash, expiresAt, maxDownloads;
      downloadsCount, lastUsedAt, revokedAt := 0, None, None;
    }

    method Regrant(tokenHash: string, now: nat, expiresIn: nat, maxDownloads: nat)
      modifies this
      ensures Row() == RegrantTx(tokenHash, now + expiresIn, maxDownloads)
      ensures Row() == Grant(tokenHash, now + expiresIn, None, 0, maxDownloads, None)
    {
      this.tokenHash := tokenHash;
      expiresAt := now + expiresIn;
      lastUsedAt := None;
      downloadsCount := 0;
      this.maxDownloads := maxDownloads;
      revokedAt := None;
    }

    method Resolve(tokenHash: string, now: nat) returns (found: bool)
      ensures found <==>
        tokenHash == this.tokenHash && now < expiresAt && downloadsCount < maxDownloads && revokedAt.None?
    {
      if tokenHash != this.tokenHash {
        return false;
      }
      var expired := expiresAt <= now;
      var remaining := downloadsCount < maxDownloads;
      found := !expired && remaining && revokedAt.None?;
    }

    method MarkUsed(now: nat) returns (updated: bool)
      modifies this`downloadsCount, this`lastUsedAt
      ensures (Row(), updated) == MarkTx(old(Row()), now)
      ensures updated <==> now < expiresAt && old(downloadsCount) < maxDownloads && revokedAt.None?
      ensures downloadsCount == old(downloadsCount) + (if updated then 1 else 0)
      ensures lastUsedAt == if updated then Some(now) else old(lastUsedAt)
    {
      updated := false;
      if revokedAt.None? && expiresAt > now && downloadsCount < maxDownloads {
        downloadsCount := downloadsCount + 1;
        lastUsedAt := Some(now);
        updated := true;
      }
    }

    method ReleaseUse()
      modifies this`downloadsCount
      ensures Row() == ReleaseTx(old(Row())).0
      ensures downloadsCount == if old(downloadsCount) > 0 then old(downloadsCount) - 1 else 0
    {
      if downloadsCount > 0 {
        downloadsCount := downloadsCount - 1;
      }
    }

    /** The download view of one request that nobody interleaves with: a redirect takes one slot,
        every other outcome takes none. */
    method Get(token: string, resolvedAt: nat, hasFile: bool, markedAt: nat, presign: Presign)
      returns (response: Response)
      modifies this`downloadsCount, this`lastUsedAt
      ensures var resolved := token == tokenHash && resolvedAt < expiresAt &&
          old(downloadsCount) < maxDownloads && revokedAt.None?;
        && (response.Redirect? <==> resolved && hasFile && markedAt < expiresAt && presign.Url?)
        && (response.Redirect? ==> response.url == presign.url)
        && (response.Invalid? ==>
          response.status ==
            if !resolved then 410 else if !hasFile then 404 else if expiresAt <= markedAt then 410 else 503)
      ensures downloadsCount == old(downloadsCount) + (if response.Redirect? then 1 else 0)
      ensures response.Redirect? ==> downloadsCount <= maxDownloads
    {
      var found := Resolve(token, resolvedAt);
      if !found {
        return Invalid("invalid_or_expired", 410);
      }
      if !hasFile {
        return Invalid("file_not_found", 404);
      }
      var marked := MarkUsed(markedAt);
      if !marked {
        return Invalid("invalid_or_expired", 410);
      }
      if presign.UrlError? {
        ReleaseUse();
        return Invalid("download_unavailable", 503);
      }
      response := Redirect(presign.url);
    }
  }

  // ---------- many requests at once ----------

  /** marked: requests between their mark and their outcome; redirects and crashes are counted since
      the last grant; carried: requests that were in flight at that grant. */
  datatype Slots = Slots(grant: Grant, marked: set<nat>, redirects: nat, crashes: nat, carried: nat)

  datatype Step =
    | Mark(r: nat, now: nat)
    | Redirected(r: nat)
    | Release(r: nat)
    | Crash(r: nat)
    | Grants(tokenHash: string, expiresAt: nat, maxDownloads: nat)

  function Fresh(expiresAt: nat, maxDownloads: nat): Slots {
    Slots(RegrantTx("", expiresAt, maxDownloads), {}, 0, 0, 0)
  }

  function Apply(s: Slots, step: Step): Slots {
    match step
    case Mark(r, now) =>
      if r in s.marked || !MarkTx(s.grant, now).1 then s
      else s.(grant := MarkTx(s.grant, now).0, marked := s.marked + {r})
    case Redirected(r) =>
      if r in s.marked then s.(marked := s.marked - {r}, redirects := s.redirects + 1) else s
    case Release(r) =>
      if r in s.marked then s.(marked := s.marked - {r}, grant := ReleaseTx(s.grant).0) else s
    case Crash(r) =>
      if r in s.marked then s.(marked := s.marked - {r}, crashes := s.crashes + 1) else s
    case Grants(tokenHash, expiresAt, maxDownloads) =>
      Slots(RegrantTx(tokenHash, expiresAt, maxDownloads), s.marked, 0, 0, |s.marked|)
  }

  function Exec(s: Slots, run: seq<Step>): Slots {
    if run == [] then s else Apply(Exec(s, run[..|run| - 1]), run[|run| - 1])
  }

  ghost predicate Conserved(s: Slots) {
    s.redirects + |s.marked| + s.crashes == s.grant.downloadsCount <= s.grant.maxDownloads
  }

  lemma OneMore(marked: set<nat>, r: nat)
    requires r !in marked
    ensures |marked + {r}| == |marked| + 1
  {}

  lemma OneLess(marked: set<nat>, r: nat)
    requires r in marked
    ensures |marked - {r}| == |marked| - 1
  {}

  /** How a step changes the number of requests in flight. */
  lemma InFlightChange(s: Slots, step: Step)
    ensures var t := Apply(s, step);
      |t.marked| == |s.marked| + (if t.marked == s.marked then 0 else if step.Mark? then 1 else -1)
  {
    if step.Mark? {
      if step.r !in s.marked { OneMore(s.marked, step.r); }
    } else if !step.Grants? && step.r in s.marked {
      OneLess(s.marked, step.r);
    }
  }

  lemma StepConserves(s: Slots, step: Step)
    requires Conserved(s) && !step.Grants?
    ensures Conserved(Apply(s, step)) && Apply(s, step).grant.maxDownloads == s.grant.maxDownloads
  {
    InFlightChange(s, step);
  }

  /** With no new grant no slot is lost or made up: the counter is exactly the redirects, the requests
      in flight and the crashed ones, it never exceeds the limit, and so a request that has to give
      its slot back always finds the counter positive. */
  lemma {:induction false} SlotsConserved(expiresAt: nat, maxDownloads: nat, run: seq<Step>)
    requires forall i :: 0 <= i < |run| ==> !run[i].Grants?
    ensures var s := Exec(Fresh(expiresAt, maxDownloads), run);
      && s.redirects + |s.marked| + s.crashes == s.grant.downloadsCount <= s.grant.maxDownloads == maxDownloads
      && (s.marked != {} ==> ReleaseTx(s.grant).1)
  {
    if run != [] {
      SlotsConserved(expiresAt, maxDownloads, run[..|run| - 1]);
      StepConserves(Exec(Fresh(expiresAt, maxDownloads), run[..|run| - 1]), run[|run| - 1]);
    }
    var s := Exec(Fresh(expiresAt, maxDownloads), run);
    assert s.marked != {} ==> |s.marked| > 0;
  }

  ghost predicate WithinBound(s: Slots) {
    && s.redirects + |s.marked| + s.crashes <= s.grant.downloadsCount + s.carried
    && s.grant.downloadsCount <= s.grant.maxDownloads
  }

  lemma StepStaysWithinBound(s: Slots, step: Step)
    requires WithinBound(s)
    ensures WithinBound(Apply(s, step))
  {
    InFlightChange(s, step);
  }

  /** Over any run with any number of new grants: the redirects since the last grant, together with
      the requests still in flight, exceed the limit by at most the requests it carried over. */
  lemma {:induction false} RegrantBound(expiresAt: nat, maxDownloads: nat, run: seq<Step>)
    ensures var s := Exec(Fresh(expiresAt, maxDownloads), run);
      && s.redirects + |s.marked| + s.crashes <= s.grant.downloadsCount + s.carried
      && s.grant.downloadsCount <= s.grant.maxDownloads
      && s.redirects <= s.grant.maxDownloads + s.carried
  {
    if run != [] {
      RegrantBound(expiresAt, maxDownloads, run[..|run| - 1]);
      StepStaysWithinBound(Exec(Fresh(expiresAt, maxDownloads), run[..|run| - 1]), run[|run| - 1]);
    }
  }

  /** Whenever a slot is taken, the grant is not revoked, has not expired and has slots left. */
  lemma MarksActiveOnly(s: Slots, r: nat, now: nat)
    ensures Apply(s, Mark(r, now)) != s <==>
      r !in s.marked && now < s.grant.expiresAt && s.grant.downloadsCount < s.grant.maxDownloads &&
      s.grant.revokedAt.None?
  {
    if r !in s.marked {
      assert r in s.marked + {r};
    }
  }

  // ---------- the bound is reached ----------

  function Marks(first: nat, n: nat): seq<Step> {
    if n == 0 then [] else Marks(first, n - 1) + [Mark(first + n - 1, 0)]
  }

  function Redirects(n: nat): seq<Step> {
    if n == 0 then [] else Redirects(n - 1) + [Redirected(n - 1)]
  }

  /** The requests 0, 1, ..., n - 1. */
  ghost predicate Below(marked: set<nat>, n: nat) {
    forall r: nat :: r in marked <==> r < n
  }

  lemma {:induction false} BelowSize(marked: set<nat>, n: nat)
    requires Below(marked, n)
    ensures |marked| == n
  {
    if n > 0 {
      BelowSize(marked - {n - 1}, n - 1);
    } else {
      assert marked == {};
    }
  }

  lemma ExecConcat(s: Slots, a: seq<Step>, b: seq<Step>)
    ensures Exec(s, a + b) == Exec(Exec(s, a), b)
    decreases |b|
  {
    if b == [] {
      assert a + b == a;
    } else {
      assert (a + b)[..|a + b| - 1] == a + b[..|b| - 1];
      ExecConcat(s, a, b[..|b| - 1]);
    }
  }

  lemma ExecSnoc(s: Slots, run: seq<Step>, step: Step)
    ensures Exec(s, run + [step]) == Apply(Exec(s, run), step)
  {
    assert (run + [step])[..|run|] == run;
  }

  /** t is s after n more marks, by the requests first, first + 1, ... */
  ghost predicate Marked(s: Slots, t: Slots, first: nat, n: nat) {
    && Below(t.marked, first + n) && t.redirects == s.redirects && t.carried == s.carried
    && t.grant.downloadsCount == s.grant.downloadsCount + n
    && t.grant == s.grant.(downloadsCount := t.grant.downloadsCount, lastUsedAt := t.grant.lastUsedAt)
  }

  lemma OneMoreMark(s: Slots, t: Slots, first: nat, n: nat)
    requires Marked(s, t, first, n) && 0 < s.grant.expiresAt && s.grant.revokedAt.None?
    requires s.grant.downloadsCount + n < s.grant.maxDownloads
    ensures Marked(s, Apply(t, Mark(first + n, 0)), first, n + 1)
  {}

  lemma {:induction false} MarksTakeSlots(s: Slots, first: nat, n: nat)
    requires Below(s.marked, first) && 0 < s.grant.expiresAt && s.grant.revokedAt.None?
    requires s.grant.downloadsCount + n <= s.grant.maxDownloads
    ensures Marked(s, Exec(s, Marks(first, n)), first, n)
  {
    if n > 0 {
      var before := Marks(first, n - 1);
      var t := Exec(s, before);
      MarksTakeSlots(s, first, n - 1);
      OneMoreMark(s, t, first, n - 1);
      ExecSnoc(s, before, Mark(first + n - 1, 0));
    }
  }

  /** t is s after the first n requests were redirected. */
  ghost predicate Drained(s: Slots, t: Slots, n: nat) {
    && t == s.(redirects := s.redirects + n, marked := t.marked)
    && forall r: nat :: r in t.marked <==> r in s.marked && r >= n
  }

  lemma OneMoreRedirect(s: Slots, t: Slots, n: nat)
    requires Drained(s, t, n) && n in s.marked
    ensures Drained(s, Apply(t, Redirected(n)), n + 1)
  {}

  lemma {:induction false} RedirectsDrain(s: Slots, n: nat)
    requires forall r: nat :: r < n ==> r in s.marked
    ensures Drained(s, Exec(s, Redirects(n)), n)
  {
    if n > 0 {
      ExecSnoc(s, Redirects(n - 1), Redirected(n - 1));
      RedirectsDrain(s, n - 1);
      OneMoreRedirect(s, Exec(s, Redirects(n - 1)), n - 1);
    }
  }

  /** For every limit and every number of requests in flight at the grant there is a run in which
      all of them and max_downloads new ones are redirected: the bound cannot be improved. */
  lemma RegrantBoundIsReached(maxDownloads: nat, k: nat) returns (run: seq<Step>)
    ensures var s := Exec(Fresh(1, k), run);
      s.carried == k && s.grant.maxDownloads == maxDownloads && s.redirects == maxDownloads + k
  {
    var start := Fresh(1, k);
    run := Marks(0, k) + [Grants("", 1, maxDownloads)] + Marks(k, maxDownloads) + Redirects(k + maxDownloads);
    MarksTakeSlots(start, 0, k);
    var full := Exec(start, Marks(0, k));
    BelowSize(full.marked, k);
    var renewed := Apply(full, Grants("", 1, maxDownloads));
    ExecSnoc(start, Marks(0, k), Grants("", 1, maxDownloads));
    MarksTakeSlots(renewed, k, maxDownloads);
    ExecConcat(start, Marks(0, k) + [Grants("", 1, maxDownloads)], Marks(k, maxDownloads));
    RedirectsDrain(Exec(renewed, Marks(k, maxDownloads)), k + maxDownloads);
    var taken := Marks(0, k) + [Grants("", 1, maxDownloads)] + Marks(k, maxDownloads);
    ExecConcat(start, taken, Redirects(k + maxDownloads));
  }
}
