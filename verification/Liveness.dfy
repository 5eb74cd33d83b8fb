/**
The connection's clocks and the verdicts read off them. Time is in nanoseconds.
*/
module Liveness {
  import opened Bytes

  const KEEPALIVE_AFTER: nat := 5_000_000_000

  const LIVENESS_WINDOW_PROBES: nat := 3

  const ALIVE_DEADLINE_FACTOR: nat := 6

  /** The clocks of one waiter. */
  datatype Clock = Clock(registeredAt: nat, sentAt: Option<nat>, lastActivity: nat)

  datatype Clocks = Clocks(waiters: map<nat, Clock>, lastFrameAt: Option<nat>, lastScheduledAt: nat,
                           keepaliveAfter: Option<nat>)

  /** `now.saturating_duration_since(t)` */
  function Since(now: nat, t: nat): nat {
    if now >= t then now - t else 0
  }

  function Clamp(x: nat, low: nat, high: nat): nat
    requires low <= high
  {
    if x < low then low else if x > high then high else x
  }

  function KeepaliveTick(after: nat): nat {
    Clamp(after / 5, 25_000_000, 1_000_000_000)
  }

  function After(c: Clocks): nat {
    match c.keepaliveAfter
    case Some(after) => after
    case None => KEEPALIVE_AFTER
  }

  // ---- Reading the clocks.

  ghost predicate OldestSent(c: Clocks, t: nat) {
    && (exists id :: id in c.waiters && c.waiters[id].sentAt == Some(t))
    && (forall id :: id in c.waiters && c.waiters[id].sentAt.Some? ==> t <= c.waiters[id].sentAt.value)
  }

  ghost predicate NothingSent(c: Clocks) {
    forall id :: id in c.waiters ==> c.waiters[id].sentAt.None?
  }

  /** From the later of "the server last spoke" and "the oldest unanswered request went out". */
  function QuietSince(c: Clocks, oldest: nat): nat {
    match c.lastFrameAt
    case Some(spoke) => Max(spoke, oldest)
    case None => oldest
  }

  /** What `quiet_for` answers. */
  ghost predicate Quiet(c: Clocks, now: nat, r: Option<nat>) {
    match r
    case None => NothingSent(c)
    case Some(q) => exists oldest: nat :: OldestSent(c, oldest) && q == Since(now, QuietSince(c, oldest))
  }

  /** Silence is the shorter of the time since the server spoke and the time since the oldest request went out. */
  lemma QuietIsTheShorter(c: Clocks, now: nat, q: nat, oldest: nat)
    requires Quiet(c, now, Some(q)) && OldestSent(c, oldest)
    ensures q == match c.lastFrameAt
                 case Some(spoke) => Min(Since(now, spoke), Since(now, oldest))
                 case None => Since(now, oldest)
  {
    var x: nat :| OldestSent(c, x) && q == Since(now, QuietSince(c, x));
    assert x == oldest;
  }

  predicate Proven(c: Clocks, now: nat) {
    c.keepaliveAfter.Some? && c.lastFrameAt.Some?
    && Since(now, c.lastFrameAt.value) < c.keepaliveAfter.value * LIVENESS_WINDOW_PROBES
  }

  function Unresponsive(c: Clocks, quiet: Option<nat>): Option<nat> {
    if c.keepaliveAfter.Some? && quiet.Some? && quiet.value >= c.keepaliveAfter.value * LIVENESS_WINDOW_PROBES
    then quiet else None
  }

  function Idle(c: Clocks, id: nat, now: nat): Option<nat> {
    if id in c.waiters then Some(Since(now, c.waiters[id].lastActivity)) else None
  }

  /** At one instant a connection is never both provably alive and unresponsive. */
  lemma NeverAliveAndUnresponsive(c: Clocks, now: nat, quiet: Option<nat>)
    requires Quiet(c, now, quiet)
    ensures !(Proven(c, now) && Unresponsive(c, quiet).Some?)
  {
    if quiet.Some? && c.lastFrameAt.Some? {
      var oldest: nat :| OldestSent(c, oldest) && quiet.value == Since(now, QuietSince(c, oldest));
      assert quiet.value <= Since(now, c.lastFrameAt.value);
    }
  }

  /** And when the server did speak and has been asked since, it is one or the other. */
  lemma AliveOrUnresponsive(c: Clocks, now: nat, quiet: Option<nat>)
    requires Quiet(c, now, quiet) && quiet.Some? && c.keepaliveAfter.Some?
    requires c.lastFrameAt.Some? && forall oldest: nat :: OldestSent(c, oldest) ==> oldest <= c.lastFrameAt.value
    ensures Proven(c, now) <==> Unresponsive(c, quiet).None?
  {
    var oldest: nat :| OldestSent(c, oldest) && quiet.value == Since(now, QuietSince(c, oldest));
  }

  // ---- Forgiving a stretch this process was not scheduled.

  /** How long nothing was scheduled, beyond the tick that was due anyway. */
  function Gap(c: Clocks, now: nat): nat {
    Since(Since(now, c.lastScheduledAt), KeepaliveTick(After(c)))
  }

  function Stall(c: Clocks, now: nat): Option<nat> {
    if Gap(c, now) >= After(c) then Some(Gap(c, now)) else None
  }

  function ShiftClock(w: Clock, d: nat): Clock {
    Clock(w.registeredAt + d, match w.sentAt { case Some(t) => Some(t + d) case None => None }, w.lastActivity + d)
  }

  function ShiftAll(waiters: map<nat, Clock>, d: nat): map<nat, Clock> {
    map id | id in waiters :: ShiftClock(waiters[id], d)
  }

  function Shift(c: Clocks, d: nat): Clocks {
    c.(waiters := ShiftAll(c.waiters, d),
       lastFrameAt := match c.lastFrameAt { case Some(t) => Some(t + d) case None => None })
  }

  function Forgive(c: Clocks, now: nat): Clocks {
    var witnessed := c.(lastScheduledAt := now);
    match Stall(c, now)
    case Some(stall) => Shift(witnessed, stall)
    case None => witnessed
  }

  /** The tick is a fifth of the keepalive interval, but never under 25 ms or over a second. */
  lemma TickIsAFifth(after: nat)
    ensures 25_000_000 <= KeepaliveTick(after) <= 1_000_000_000
    ensures 125_000_000 <= after <= 5_000_000_000 ==> KeepaliveTick(after) == after / 5
    ensures after < 125_000_000 ==> KeepaliveTick(after) == 25_000_000
    ensures after > 5_000_000_000 ==> KeepaliveTick(after) == 1_000_000_000
  {
  }

  /**
  Exactly a stretch as long as the keepalive interval, beyond the tick that was due, is forgiven, and
  then to the full; a shorter one is not forgiven at all.
  */
  lemma OnlyAStallIsForgiven(c: Clocks, now: nat, id: nat)
    requires id in c.waiters && c.lastScheduledAt <= now
    ensures var after := if c.keepaliveAfter.Some? then c.keepaliveAfter.value else 5_000_000_000;
            var unseen := now - c.lastScheduledAt - KeepaliveTick(after);
            var c' := Forgive(c, now);
            && c'.lastScheduledAt == now && c'.keepaliveAfter == c.keepaliveAfter && id in c'.waiters
            && c'.waiters[id].lastActivity
               == c.waiters[id].lastActivity + (if unseen > 0 && unseen >= after then unseen else 0)
  {
  }

  /** Every clock moves by the same amount, so every difference between two of them stays. */
  lemma ForgivenessKeepsDifferences(c: Clocks, now: nat, a: nat, b: nat)
    requires a in c.waiters && b in c.waiters
    ensures var c' := Forgive(c, now);
            && c'.waiters.Keys == c.waiters.Keys
            && c'.waiters[a].lastActivity - c'.waiters[b].lastActivity
               == c.waiters[a].lastActivity - c.waiters[b].lastActivity
            && c'.waiters[a].registeredAt - c'.waiters[b].lastActivity
               == c.waiters[a].registeredAt - c.waiters[b].lastActivity
            && (c.waiters[a].sentAt.Some? <==> c'.waiters[a].sentAt.Some?)
            && (c.waiters[a].sentAt.Some? ==>
                  c'.waiters[a].sentAt.value - c'.waiters[b].lastActivity
                  == c.waiters[a].sentAt.value - c.waiters[b].lastActivity)
            && (c.lastFrameAt.Some? <==> c'.lastFrameAt.Some?)
            && (c.lastFrameAt.Some? ==>
                  c'.lastFrameAt.value - c'.waiters[b].lastActivity == c.lastFrameAt.value - c.waiters[b].lastActivity)
  {
  }

  /** Whichever loop corrects first, the others find nothing left to correct. */
  lemma ForgivenessIsIdempotent(c: Clocks, now: nat)
    ensures Forgive(Forgive(c, now), now) == Forgive(c, now)
    ensures Stall(Forgive(c, now), now).Some? ==> After(c) == 0
  {
    var once := Forgive(c, now);
    assert Gap(once, now) == 0;
    assert Shift(once, 0) == once by {
      assert forall id :: id in once.waiters ==> ShiftClock(once.waiters[id], 0) == once.waiters[id];
    }
  }

  /**
  A request idle when the stall began is exactly that idle afterwards, plus the one tick that was
  due anyway: nothing aged while nobody was listening, and nothing was exonerated.
  */
  lemma ForgivenessKeepsWhatWasOwed(c: Clocks, now: nat, id: nat)
    requires id in c.waiters && c.waiters[id].lastActivity <= c.lastScheduledAt <= now
    requires Stall(c, now).Some? && Gap(c, now) > 0
    ensures Idle(Forgive(c, now), id, now)
            == Some(Since(c.lastScheduledAt, c.waiters[id].lastActivity) + KeepaliveTick(After(c)))
  {
  }

  // ---- The response deadline.

  datatype Verdict = Wait | TimedOut | Dead(silentFor: nat)

  /** One tick of `await_response`; `quiet` is what `quiet_for` said. */
  function Judge(c: Clocks, id: nat, timeout: nat, now: nat, quiet: Option<nat>): Verdict {
    match Idle(c, id, now)
    case None => Wait
    case Some(idle) =>
      if idle < timeout then Wait
      else if idle < timeout * ALIVE_DEADLINE_FACTOR && Proven(c, now) then Wait
      else match Unresponsive(c, quiet)
           case Some(silentFor) => Dead(silentFor)
           case None => TimedOut
  }

  /**
  Giving up costs a request its full deadline, six of them on a connection that proved alive,
  and a connection is declared dead only when nothing on it proved alive.
  */
  lemma GivingUpCostsTheDeadline(c: Clocks, id: nat, timeout: nat, now: nat, quiet: Option<nat>)
    requires Quiet(c, now, quiet)
    ensures var verdict := Judge(c, id, timeout, now, quiet);
            && (verdict != Wait <==>
                  id in c.waiters
                  && var idle := Since(now, c.waiters[id].lastActivity);
                     idle >= (if Proven(c, now) then timeout * ALIVE_DEADLINE_FACTOR else timeout))
            && (verdict.Dead? ==> !Proven(c, now) && Some(verdict.silentFor) == quiet)
  {
    NeverAliveAndUnresponsive(c, now, quiet);
  }

  /** One wakeup of the wait: the clocks as everybody else left them, the time, and what `quiet_for` says then. */
  datatype Wakeup = Wakeup(clocks: Clocks, now: nat, quiet: Option<nat>)

  datatype Outcome = GaveUp(at: nat, verdict: Verdict) | StillWaiting

  /** The first wakeup that gives a verdict, if any does. */
  ghost predicate Ends(id: nat, timeout: nat, wakeups: seq<Wakeup>, outcome: Outcome) {
    match outcome
    case GaveUp(at, verdict) =>
      && at < |wakeups| && verdict != Wait && JudgeAt(id, timeout, wakeups[at]) == verdict
      && forall i :: 0 <= i < at ==> JudgeAt(id, timeout, wakeups[i]) == Wait
    case StillWaiting => forall i :: 0 <= i < |wakeups| ==> JudgeAt(id, timeout, wakeups[i]) == Wait
  }

  /** Stalls are forgiven before any clock is read. */
  function JudgeAt(id: nat, timeout: nat, w: Wakeup): Verdict {
    Judge(Forgive(w.clocks, w.now), id, timeout, w.now, w.quiet)
  }

  /** At each wakeup the silence is read off the clocks, after stalls are forgiven. */
  ghost predicate Read(wakeups: seq<Wakeup>) {
    forall i :: 0 <= i < |wakeups| ==>
      Quiet(Forgive(wakeups[i].clocks, wakeups[i].now), wakeups[i].now, wakeups[i].quiet)
  }

  /** The connection was silent for the whole liveness window and nothing proved it alive. */
  ghost predicate Silent(w: Wakeup, silentFor: nat) {
    var c := Forgive(w.clocks, w.now);
    && Quiet(c, w.now, Some(silentFor)) && !Proven(c, w.now)
    && c.keepaliveAfter.Some? && silentFor >= c.keepaliveAfter.value * LIVENESS_WINDOW_PROBES
  }

  /** There is one oldest request, so one silence. */
  lemma QuietIsUnique(c: Clocks, now: nat, a: Option<nat>, b: Option<nat>)
    requires Quiet(c, now, a) && Quiet(c, now, b)
    ensures a == b
  {
    if a.Some? && b.Some? {
      var x: nat :| OldestSent(c, x) && a.value == Since(now, QuietSince(c, x));
      var y: nat :| OldestSent(c, y) && b.value == Since(now, QuietSince(c, y));
      assert x == y;
    }
  }

  /** A wait that is over ends with a dead connection exactly when the connection was silent. */
  lemma DeadExactlyWhenSilent(id: nat, timeout: nat, w: Wakeup)
    requires Quiet(Forgive(w.clocks, w.now), w.now, w.quiet)
    ensures JudgeAt(id, timeout, w) != Wait ==> (JudgeAt(id, timeout, w).Dead? <==> exists q: nat :: Silent(w, q))
    ensures JudgeAt(id, timeout, w).Dead? ==> Silent(w, JudgeAt(id, timeout, w).silentFor)
  {
    var c := Forgive(w.clocks, w.now);
    NeverAliveAndUnresponsive(c, w.now, w.quiet);
    if q: nat :| Silent(w, q) {
      QuietIsUnique(c, w.now, w.quiet, Some(q));
      assert Unresponsive(c, w.quiet).Some?;
    }
    if JudgeAt(id, timeout, w).Dead? {
      assert Silent(w, JudgeAt(id, timeout, w).silentFor);
    }
  }

  /** `await_response` while no response arrives. */
  method AwaitResponse(id: nat, timeout: nat, wakeups: seq<Wakeup>) returns (outcome: Outcome)
    requires Read(wakeups)
    ensures Ends(id, timeout, wakeups, outcome)
    ensures outcome.GaveUp? ==>
              && (outcome.verdict.Dead? <==> exists q: nat :: Silent(wakeups[outcome.at], q))
              && (outcome.verdict.Dead? ==> Silent(wakeups[outcome.at], outcome.verdict.silentFor))
  {
    var i := 0;
    while i < |wakeups|
      invariant 0 <= i <= |wakeups|
      invariant forall k :: 0 <= k < i ==> JudgeAt(id, timeout, wakeups[k]) == Wait
    {
      var verdict := JudgeAt(id, timeout, wakeups[i]);
      DeadExactlyWhenSilent(id, timeout, wakeups[i]);
      if verdict != Wait {
        return GaveUp(i, verdict);
      }
      i := i + 1;
    }
    return StillWaiting;
  }

  /**
  With no sign of life for the request and no stall, the wait is over at the latest on the first
  wakeup past six deadlines.
  */
  lemma SilenceEndsTheWait(id: nat, timeout: nat, wakeups: seq<Wakeup>, outcome: Outcome, activity: nat, k: nat)
    requires Ends(id, timeout, wakeups, outcome) && k < |wakeups|
    requires forall i :: 0 <= i <= k ==>
      id in wakeups[i].clocks.waiters && wakeups[i].clocks.waiters[id].lastActivity == activity
      && Stall(wakeups[i].clocks, wakeups[i].now).None?
    requires wakeups[k].now >= activity + timeout * ALIVE_DEADLINE_FACTOR
    ensures outcome.GaveUp? && outcome.at <= k
  {
    assert JudgeAt(id, timeout, wakeups[k]) != Wait;
  }

  /** And never before the request was silent for one whole deadline after its last sign of life. */
  lemma NoEarlyVerdict(id: nat, timeout: nat, wakeups: seq<Wakeup>, outcome: Outcome)
    requires Ends(id, timeout, wakeups, outcome) && outcome.GaveUp?
    ensures var w := wakeups[outcome.at];
            id in w.clocks.waiters && Since(w.now, w.clocks.waiters[id].lastActivity) >= timeout
  {
    var w := wakeups[outcome.at];
    assert JudgeAt(id, timeout, w) != Wait;
  }

  // ---- A silent wait, stalls included.

  /** The clocks after wakeups at `nows`, when nothing else happens on the connection. */
  function ClocksAfter(c: Clocks, nows: seq<nat>): Clocks {
    if nows == [] then c else Forgive(ClocksAfter(c, nows[..|nows| - 1]), nows[|nows| - 1])
  }

  /** The part of the time up to the last wakeup that this process was scheduled. */
  function Listened(c: Clocks, nows: seq<nat>): int {
    if nows == [] then 0
    else
      var before, now := ClocksAfter(c, nows[..|nows| - 1]), nows[|nows| - 1];
      Listened(c, nows[..|nows| - 1]) + Since(now, before.lastScheduledAt)
      - match Stall(before, now) { case Some(stall) => stall case None => 0 }
  }

  predicate Rising(from: nat, nows: seq<nat>) {
    && (forall i :: 0 <= i < |nows| ==> from <= nows[i])
    && (forall i, j :: 0 <= i < j < |nows| ==> nows[i] <= nows[j])
  }

  /** How long the request had been idle when the wait began, plus the time listened since. */
  function Age(c: Clocks, id: nat, nows: seq<nat>): int
    requires id in c.waiters
  {
    Since(c.lastScheduledAt, c.waiters[id].lastActivity) + Listened(c, nows)
  }

  /** However many stalls come in between, a request ages by the time somebody listened and by nothing else. */
  lemma {:induction false} OnlyListeningAges(c: Clocks, id: nat, nows: seq<nat>)
    requires id in c.waiters && c.waiters[id].lastActivity <= c.lastScheduledAt && Rising(c.lastScheduledAt, nows)
    ensures var after := ClocksAfter(c, nows);
            && id in after.waiters && after.waiters[id].lastActivity <= after.lastScheduledAt
            && after.lastScheduledAt == (if nows == [] then c.lastScheduledAt else nows[|nows| - 1])
            && Idle(after, id, after.lastScheduledAt) == Some(Age(c, id, nows))
  {
    if nows != [] {
      var n := |nows| - 1;
      assert Rising(c.lastScheduledAt, nows[..n]);
      OnlyListeningAges(c, id, nows[..n]);
      OneWakeup(ClocksAfter(c, nows[..n]), id, nows[n]);
    }
  }

  lemma OneWakeup(c: Clocks, id: nat, now: nat)
    requires id in c.waiters && c.waiters[id].lastActivity <= c.lastScheduledAt <= now
    ensures var after := Forgive(c, now);
            && id in after.waiters && after.waiters[id].lastActivity <= after.lastScheduledAt == now
            && now - after.waiters[id].lastActivity
               == c.lastScheduledAt - c.waiters[id].lastActivity + (now - c.lastScheduledAt)
                  - match Stall(c, now) { case Some(stall) => stall case None => 0 }
  {
  }

  ghost predicate SilentRun(c: Clocks, nows: seq<nat>, wakeups: seq<Wakeup>) {
    && |wakeups| == |nows|
    && forall i :: 0 <= i < |nows| ==> wakeups[i].now == nows[i] && wakeups[i].clocks == ClocksAfter(c, nows[..i])
  }

  /**
  A silent wait, through any stalls: it is over by the first wakeup at which the request has been
  listened to for six deadlines, and it is never over before it has been listened to for one.
  */
  lemma ListeningEndsTheWait(
      c: Clocks, id: nat, timeout: nat, nows: seq<nat>, wakeups: seq<Wakeup>, outcome: Outcome, k: nat)
    requires id in c.waiters && c.waiters[id].lastActivity <= c.lastScheduledAt && Rising(c.lastScheduledAt, nows)
    requires SilentRun(c, nows, wakeups) && Ends(id, timeout, wakeups, outcome) && k < |nows|
    ensures Age(c, id, nows[..k + 1]) >= timeout * ALIVE_DEADLINE_FACTOR ==> outcome.GaveUp? && outcome.at <= k
    ensures outcome.GaveUp? && outcome.at == k ==> Age(c, id, nows[..k + 1]) >= timeout
  {
    AgeAtWakeup(c, id, nows, k);
    JudgedByIdleness(
      Forgive(wakeups[k].clocks, wakeups[k].now), id, timeout, nows[k], wakeups[k].quiet, Age(c, id, nows[..k + 1]));
    EndsByThen(id, timeout, wakeups, outcome, k);
  }

  lemma AgeAtWakeup(c: Clocks, id: nat, nows: seq<nat>, k: nat)
    requires id in c.waiters && c.waiters[id].lastActivity <= c.lastScheduledAt && Rising(c.lastScheduledAt, nows)
    requires k < |nows|
    ensures Idle(Forgive(ClocksAfter(c, nows[..k]), nows[k]), id, nows[k]) == Some(Age(c, id, nows[..k + 1]))
  {
    OnlyListeningAges(c, id, nows[..k + 1]);
    assert nows[..k + 1][..k] == nows[..k];
  }

  lemma JudgedByIdleness(c: Clocks, id: nat, timeout: nat, now: nat, quiet: Option<nat>, idle: nat)
    requires Idle(c, id, now) == Some(idle)
    ensures idle >= timeout * ALIVE_DEADLINE_FACTOR ==> Judge(c, id, timeout, now, quiet) != Wait
    ensures Judge(c, id, timeout, now, quiet) != Wait ==> idle >= timeout
  {
  }

  lemma EndsByThen(id: nat, timeout: nat, wakeups: seq<Wakeup>, outcome: Outcome, k: nat)
    requires Ends(id, timeout, wakeups, outcome) && k < |wakeups|
    ensures JudgeAt(id, timeout, wakeups[k]) != Wait ==> outcome.GaveUp? && outcome.at <= k
    ensures outcome.GaveUp? && outcome.at == k ==> JudgeAt(id, timeout, wakeups[k]) != Wait
  {
  }
}
