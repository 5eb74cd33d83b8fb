/**
Reviving a dead connection (src/client/connection.rs): any number of callers ask for it, one at a
time dials, and a failed revival's verdict stands for a while. Events are the lock sections of
`reconnect_if_needed` and the awaits inside `revive`; time, the dial and the authentication are the
environment's.
*/
module Revival {
  import opened Bytes

  datatype Policy = Policy(
    maxAttempts: nat, initialBackoff: nat, maxBackoff: nat, totalBudget: nat, failureCooldown: nat, hasReviver: bool)

  // ---- The attempt loop.

  /** The sleep after the `k`th failed attempt. */
  function Pause(p: Policy, k: nat): nat {
    if k <= 1 then p.initialBackoff else Min(2 * Pause(p, k - 1), p.maxBackoff)
  }

  function Pow2(n: nat): nat {
    if n == 0 then 1 else 2 * Pow2(n - 1)
  }

  /** From the second sleep on: doubled each round, capped. */
  lemma {:induction false} PauseDoublesUpToTheCap(p: Policy, k: nat)
    requires k >= 2
    ensures Pause(p, k) == Min(p.initialBackoff * Pow2(k - 1), p.maxBackoff)
  {
    if k == 2 {
      assert Pow2(1) == 2 * Pow2(0);
    } else {
      PauseDoublesUpToTheCap(p, k - 1);
      Doubling(p.initialBackoff, Pow2(k - 2));
    }
  }

  lemma Doubling(a: nat, b: nat)
    ensures 2 * (a * b) == a * (2 * b)
  {
  }

  /** The first sleep is not capped: every sleep is within the ceiling exactly when the first is. */
  lemma PausesAreCappedUnlessTheFirst(p: Policy)
    ensures (forall k: nat :: k >= 1 ==> Pause(p, k) <= p.maxBackoff) <==> p.initialBackoff <= p.maxBackoff
  {
    assert Pause(p, 1) == p.initialBackoff;
  }

  /** How an attempt loop ended, how often it dialled, and how long it slept in between. */
  datatype Attempts = Attempts(ok: bool, dials: nat, sleeps: seq<nat>)

  /**
  `works(a)` says whether attempt `a` would dial and authenticate; `marks` counts how often the
  connection was marked dead.
  */
  method ReviveAttempts(p: Policy, works: nat -> bool) returns (r: Attempts, marks: nat)
    ensures r.dials <= p.maxAttempts
    ensures r.ok <==> exists a :: 1 <= a <= p.maxAttempts && works(a)
    ensures r.ok ==> 1 <= r.dials && works(r.dials)
    ensures forall a :: 1 <= a <= r.dials && (a < r.dials || !r.ok) ==> !works(a)
    ensures !r.ok ==> r.dials == p.maxAttempts
    ensures |r.sleeps| == if r.dials == 0 then 0 else r.dials - 1
    ensures forall k :: 0 <= k < |r.sleeps| ==> r.sleeps[k] == Pause(p, k + 1)
    ensures marks == if r.ok then r.dials - 1 else r.dials
  {
    var backoff := p.initialBackoff;
    var sleeps: seq<nat> := [];
    marks := 0;
    for attempt := 1 to p.maxAttempts + 1
      invariant |sleeps| == if attempt == 1 then 0 else attempt - 2
      invariant forall k :: 0 <= k < |sleeps| ==> sleeps[k] == Pause(p, k + 1)
      invariant backoff == Pause(p, |sleeps| + 1)
      invariant forall a :: 1 <= a < attempt ==> !works(a)
      invariant marks == attempt - 1
    {
      if attempt > 1 {
        sleeps := sleeps + [backoff];
        backoff := Min(backoff * 2, p.maxBackoff);
      }
      if works(attempt) {
        return Attempts(true, attempt, sleeps), marks;
      }
      marks := marks + 1;
    }
    return Attempts(false, p.maxAttempts, sleeps), marks;
  }

  // ---- All callers together.

  datatype Outcome = AlreadyUp | FixedByOther | Verdict | NoReviver | Revived | GaveUp

  datatype Stage =
    | Looking
    | Queued(seen: nat)
    | Dialing(attempt: nat, started: nat)
    | Authenticating(attempt: nat, started: nat)
    | Resting(attempt: nat, started: nat, until: nat)
    | Done(outcome: Outcome, tries: nat)
    | Gone(tries: nat, midway: bool)

  datatype Dial = Dial(caller: nat, attempt: nat, at: nat)

  /**
  `established` remembers whether the current socket was ever authenticated, and `socket` whose
  dial it came from, if from any. A caller is `Gone` midway if it was dropped while it authenticated.
  */
  datatype State = State(
    disconnected: bool, established: bool, socket: Option<nat>, revivals: nat, holder: Option<nat>,
    lastFailure: Option<nat>, clock: nat, callers: seq<Stage>, dials: seq<Dial>)

  datatype Event =
    | Arrive
    | Look(caller: nat)
    | Enter(caller: nat)
    | Dialed(caller: nat, ok: bool)
    | Authenticated(caller: nat, ok: bool)
    | Wake(caller: nat)
    | Expire(caller: nat)
    | Drop(caller: nat)
    | Sever
    | Tick(passed: nat)

  predicate Active(g: Stage) {
    g.Dialing? || g.Authenticating? || g.Resting?
  }

  /** Dials made so far. */
  function Tries(g: Stage): nat {
    match g
    case Looking | Queued(_) => 0
    case Dialing(k, _) => k
    case Authenticating(k, _) => k
    case Resting(k, _, _) => k
    case Done(_, n) => n
    case Gone(n, _) => n
  }

  predicate Enabled(p: Policy, s: State, e: Event) {
    match e
    case Arrive | Sever | Tick(_) => true
    case Look(c) => c < |s.callers| && s.callers[c].Looking?
    case Enter(c) => c < |s.callers| && s.callers[c].Queued? && s.holder.None?
    case Dialed(c, _) => c < |s.callers| && s.callers[c].Dialing?
    case Authenticated(c, _) => c < |s.callers| && s.callers[c].Authenticating?
    case Wake(c) => c < |s.callers| && s.callers[c].Resting? && s.clock >= s.callers[c].until
    case Expire(c) =>
      c < |s.callers| && Active(s.callers[c]) && s.clock >= s.callers[c].started + p.totalBudget
    case Drop(c) => c < |s.callers| && !s.callers[c].Done? && !s.callers[c].Gone?
  }

  function StartDial(s: State, c: nat, k: nat, started: nat): State
    requires c < |s.callers|
  {
    s.(holder := Some(c), callers := s.callers[c := Dialing(k, started)], dials := s.dials + [Dial(c, k, s.clock)])
  }

  function Leave(s: State, c: nat, outcome: Outcome, tries: nat): State
    requires c < |s.callers|
  {
    s.(holder := None, callers := s.callers[c := Done(outcome, tries)])
  }

  function GiveUp(s: State, c: nat, k: nat): State
    requires c < |s.callers|
  {
    Leave(s, c, GaveUp, k).(disconnected := true, lastFailure := Some(s.clock))
  }

  function Fail(p: Policy, s: State, c: nat, k: nat, started: nat): State
    requires c < |s.callers| && k >= 1
  {
    if k >= p.maxAttempts then GiveUp(s, c, k)
    else s.(disconnected := true, callers := s.callers[c := Resting(k, started, s.clock + Pause(p, k))])
  }

  predicate VerdictStands(p: Policy, s: State) {
    s.lastFailure.Some? && s.clock - s.lastFailure.value < p.failureCooldown
  }

  function ApplyEnter(p: Policy, s: State, c: nat): State
    requires c < |s.callers| && s.callers[c].Queued?
  {
    if s.revivals != s.callers[c].seen then Leave(s, c, FixedByOther, 0)
    else if !s.disconnected then Leave(s, c, AlreadyUp, 0)
    else if VerdictStands(p, s) then Leave(s, c, Verdict, 0)
    else if !p.hasReviver || p.maxAttempts == 0 then Leave(s, c, NoReviver, 0)
    else StartDial(s, c, 1, s.clock)
  }

  function ApplyAttempt(p: Policy, s: State, e: Event): State
    requires (e.Dialed? || e.Authenticated?) && Enabled(p, s, e) && Tries(s.callers[e.caller]) >= 1
  {
    var g := s.callers[e.caller];
    if !e.ok then Fail(p, s, e.caller, g.attempt, g.started)
    else if e.Dialed? then
      s.(disconnected := false, established := false, socket := Some(e.caller),
         callers := s.callers[e.caller := Authenticating(g.attempt, g.started)])
    else
      Leave(s, e.caller, Revived, g.attempt).(revivals := s.revivals + 1, lastFailure := None, established := true)
  }

  function Apply(p: Policy, s: State, e: Event): State
    requires Single(s) && Bounded(p, s) && Enabled(p, s, e)
  {
    match e
    case Arrive => s.(callers := s.callers + [if s.disconnected then Looking else Done(AlreadyUp, 0)])
    case Look(c) => s.(callers := s.callers[c := Queued(s.revivals)])
    case Enter(c) => ApplyEnter(p, s, c)
    case Dialed(_, _) => ApplyAttempt(p, s, e)
    case Authenticated(_, _) => ApplyAttempt(p, s, e)
    case Wake(c) => StartDial(s, c, s.callers[c].attempt + 1, s.callers[c].started)
    case Expire(c) => GiveUp(s, c, s.callers[c].attempt)
    case Drop(c) =>
      s.(holder := if s.holder == Some(c) then None else s.holder,
         callers := s.callers[c := Gone(Tries(s.callers[c]), s.callers[c].Authenticating?)])
    case Sever => s.(disconnected := true)
    case Tick(d) => s.(clock := s.clock + d)
  }

  // ---- What every step keeps.

  /** Whoever is dialling, authenticating or resting holds the lock. */
  predicate Single(s: State) {
    && (s.holder.Some? ==> s.holder.value < |s.callers|)
    && forall i :: 0 <= i < |s.callers| ==> (Active(s.callers[i]) <==> s.holder == Some(i))
  }

  predicate Bounded(p: Policy, s: State) {
    forall i :: 0 <= i < |s.callers| ==>
      && Tries(s.callers[i]) <= p.maxAttempts
      && (Active(s.callers[i]) ==> 1 <= s.callers[i].attempt)
      && (s.callers[i].Resting? ==> s.callers[i].attempt < p.maxAttempts)
  }

  function Count(dials: seq<Dial>, c: nat): nat {
    if dials == [] then 0
    else Count(dials[..|dials| - 1], c) + if dials[|dials| - 1].caller == c then 1 else 0
  }

  /** Every dial is on record, and a caller's dials are numbered from 1. */
  ghost predicate Logged(s: State) {
    && (forall i: nat :: i < |s.callers| ==> Count(s.dials, i) == Tries(s.callers[i]))
    && (forall j :: 0 <= j < |s.dials| ==> s.dials[j].caller < |s.callers|)
    && (forall j :: 0 <= j < |s.dials| ==> s.dials[j].attempt == Count(s.dials[..j], s.dials[j].caller) + 1)
  }

  /** A standing failure is older than the running revival by the cooldown. */
  predicate Cooled(p: Policy, s: State) {
    && (s.lastFailure.Some? ==> s.lastFailure.value <= s.clock)
    && forall i :: 0 <= i < |s.callers| && Active(s.callers[i]) ==>
         && s.callers[i].started <= s.clock
         && (s.lastFailure.Some? ==> s.lastFailure.value + p.failureCooldown <= s.callers[i].started)
  }

  function Revivals(callers: seq<Stage>): nat {
    if callers == [] then 0
    else Revivals(callers[..|callers| - 1]) + if Won(callers[|callers| - 1]) then 1 else 0
  }

  predicate Won(g: Stage) {
    g.Done? && g.outcome == Revived
  }

  /** The generation is the number of callers whose revival succeeded. */
  predicate Tallied(s: State) {
    && s.revivals == Revivals(s.callers)
    && forall i :: 0 <= i < |s.callers| && s.callers[i].Queued? ==> s.callers[i].seen <= s.revivals
  }

  /** `d` is the reviving caller's latest dial; a resting caller sleeps its full pause after it. */
  predicate Latest(p: Policy, clock: nat, g: Stage, c: nat, d: Dial)
    requires Active(g)
  {
    && d.caller == c && d.attempt == g.attempt && d.at <= clock
    && (g.Resting? ==> d.at + Pause(p, d.attempt) <= g.until)
  }

  /** The dial before `d`, a full pause earlier. */
  predicate Precedes(p: Policy, before: Dial, d: Dial) {
    before.caller == d.caller && before.attempt + 1 == d.attempt && before.at + Pause(p, before.attempt) <= d.at
  }

  /** Successive dials of one revival are at least the backoff apart. */
  ghost predicate Spaced(p: Policy, s: State) {
    && (forall c :: 0 <= c < |s.callers| && Active(s.callers[c]) ==> Dialled(p, s, c))
    && LogSpaced(p, s.dials)
  }

  /** The caller whose dial the current socket came from is still authenticating on it, or was dropped doing so. */
  predicate Midway(s: State) {
    && s.socket.Some? && s.socket.value < |s.callers|
    && (s.callers[s.socket.value].Authenticating?
        || (s.callers[s.socket.value].Gone? && s.callers[s.socket.value].midway))
  }

  /** A connection that looks up is authenticated, or its authentication never finished. */
  predicate Housed(s: State) {
    && (s.socket.Some? ==> s.socket.value < |s.callers|)
    && (s.established <==> s.socket.None? || Won(s.callers[s.socket.value]))
    && (!s.disconnected ==> s.established || Midway(s))
    && (forall i :: 0 <= i < |s.callers| && s.callers[i].Authenticating? ==> s.socket == Some(i))
  }

  ghost predicate Inv(p: Policy, s: State) {
    Single(s) && Bounded(p, s) && Logged(s) && Cooled(p, s) && Tallied(s) && Spaced(p, s) && Housed(s)
  }

  const INITIAL := State(false, true, None, 0, None, None, 0, [], [])

  lemma SingleStep(p: Policy, s: State, e: Event)
    requires Single(s) && Bounded(p, s) && Enabled(p, s, e)
    ensures Single(Apply(p, s, e))
  {
    if e.Dialed? || e.Authenticated? {
      SingleAttempt(p, s, e);
    } else if e.Enter? {
      SingleEnter(p, s, e.caller);
    }
  }

  lemma SingleAttempt(p: Policy, s: State, e: Event)
    requires Single(s) && Bounded(p, s) && Enabled(p, s, e) && (e.Dialed? || e.Authenticated?)
    ensures var t := ApplyAttempt(p, s, e); Single(t) && Bounded(p, t)
  {
  }

  lemma SingleEnter(p: Policy, s: State, c: nat)
    requires Single(s) && Bounded(p, s) && Enabled(p, s, Enter(c))
    ensures var t := ApplyEnter(p, s, c); Single(t) && Bounded(p, t)
  {
  }

  lemma BoundedStep(p: Policy, s: State, e: Event)
    requires Single(s) && Bounded(p, s) && Enabled(p, s, e)
    ensures Bounded(p, Apply(p, s, e))
  {
    if e.Dialed? || e.Authenticated? {
      SingleAttempt(p, s, e);
    } else if e.Enter? {
      SingleEnter(p, s, e.caller);
    }
  }

  /** A caller's own event moves that caller only. */
  lemma StepShape(p: Policy, s: State, e: Event)
    requires Single(s) && Bounded(p, s) && Enabled(p, s, e) && !e.Arrive? && !e.Sever? && !e.Tick?
    ensures var t, c := Apply(p, s, e), e.caller;
            && t.callers == s.callers[c := t.callers[c]] && t.clock == s.clock
            && (t.dials == s.dials ==> Tries(t.callers[c]) == Tries(s.callers[c]))
            && (t.dials != s.dials ==> t.dials == s.dials + [Dial(c, Tries(s.callers[c]) + 1, s.clock)]
                                       && t.callers[c].Dialing? && Tries(t.callers[c]) == Tries(s.callers[c]) + 1)
            && (Active(t.callers[c]) ==>
                  && t.lastFailure == s.lastFailure
                  && if Active(s.callers[c]) then t.callers[c].started == s.callers[c].started
                     else t.callers[c].started == s.clock && !VerdictStands(p, s))
            && (t.lastFailure in {s.lastFailure, None} || (t.lastFailure == Some(s.clock) && s.holder == Some(c)))
  {
  }

  lemma CooledStep(p: Policy, s: State, e: Event)
    requires Single(s) && Bounded(p, s) && Cooled(p, s) && Enabled(p, s, e)
    ensures Cooled(p, Apply(p, s, e))
  {
    if !e.Arrive? && !e.Sever? && !e.Tick? {
      StepShape(p, s, e);
      CooledMove(p, s, Apply(p, s, e), e.caller);
    }
  }

  lemma CooledMove(p: Policy, s: State, t: State, c: nat)
    requires Single(s) && Cooled(p, s) && c < |s.callers| == |t.callers| && t.clock == s.clock
    requires t.callers == s.callers[c := t.callers[c]]
    requires Active(t.callers[c]) ==>
               && t.lastFailure == s.lastFailure
               && if Active(s.callers[c]) then t.callers[c].started == s.callers[c].started
                  else t.callers[c].started == s.clock && !VerdictStands(p, s)
    requires t.lastFailure in {s.lastFailure, None} || (t.lastFailure == Some(s.clock) && s.holder == Some(c))
    ensures Cooled(p, t)
  {
  }

  lemma {:induction false} RevivalsUpdate(callers: seq<Stage>, c: nat, g: Stage)
    requires c < |callers|
    ensures Revivals(callers[c := g])
            == Revivals(callers) - (if Won(callers[c]) then 1 else 0) + (if Won(g) then 1 else 0)
  {
    var n := |callers| - 1;
    if c < n {
      RevivalsUpdate(callers[..n], c, g);
      assert callers[c := g][..n] == callers[..n][c := g];
    } else {
      assert callers[c := g][..n] == callers[..n];
    }
  }

  lemma RevivalsAppend(callers: seq<Stage>, g: Stage)
    ensures Revivals(callers + [g]) == Revivals(callers) + if Won(g) then 1 else 0
  {
    assert (callers + [g])[..|callers|] == callers;
  }

  lemma TalliedStep(p: Policy, s: State, e: Event)
    requires Single(s) && Bounded(p, s) && Tallied(s) && Enabled(p, s, e)
    ensures Tallied(Apply(p, s, e))
  {
    if e.Arrive? {
      RevivalsAppend(s.callers, if s.disconnected then Looking else Done(AlreadyUp, 0));
    } else if !e.Sever? && !e.Tick? {
      StepShape(p, s, e);
      WinShape(p, s, e);
      TalliedMove(s, Apply(p, s, e), e.caller);
    }
  }

  lemma TalliedMove(s: State, t: State, c: nat)
    requires Tallied(s) && c < |s.callers| == |t.callers| && t.callers == s.callers[c := t.callers[c]]
    requires !Won(s.callers[c]) && t.revivals == s.revivals + if Won(t.callers[c]) then 1 else 0
    requires t.callers[c].Queued? ==> t.callers[c].seen <= s.revivals
    ensures Tallied(t)
  {
    RevivalsUpdate(s.callers, c, t.callers[c]);
  }

  /** The generation moves with the one event that wins. */
  lemma WinShape(p: Policy, s: State, e: Event)
    requires Single(s) && Bounded(p, s) && Enabled(p, s, e) && !e.Arrive? && !e.Sever? && !e.Tick?
    ensures var t, c := Apply(p, s, e), e.caller;
            && !Won(s.callers[c]) && t.revivals == s.revivals + (if Won(t.callers[c]) then 1 else 0)
            && (t.callers[c].Queued? ==> t.callers[c].seen == s.revivals)
  {
  }

  lemma CountAppend(dials: seq<Dial>, d: Dial, c: nat)
    ensures Count(dials + [d], c) == Count(dials, c) + if d.caller == c then 1 else 0
  {
    assert (dials + [d])[..|dials|] == dials;
  }

  lemma {:induction false} NoDialsNoCount(dials: seq<Dial>, c: nat)
    requires forall j :: 0 <= j < |dials| ==> dials[j].caller != c
    ensures Count(dials, c) == 0
  {
    if dials != [] {
      NoDialsNoCount(dials[..|dials| - 1], c);
    }
  }

  /** Logging a caller's next dial keeps the record. */
  lemma LoggedDial(s: State, t: State, c: nat)
    requires Logged(s) && c < |s.callers| == |t.callers| && t.callers == s.callers[c := t.callers[c]]
    requires Tries(t.callers[c]) == Tries(s.callers[c]) + 1
    requires t.dials == s.dials + [Dial(c, Tries(t.callers[c]), s.clock)]
    ensures Logged(t)
  {
    forall i: nat | i < |t.callers| ensures Count(t.dials, i) == Tries(t.callers[i]) {
      CountAppend(s.dials, t.dials[|s.dials|], i);
    }
    forall j | 0 <= j < |t.dials| ensures t.dials[j].attempt == Count(t.dials[..j], t.dials[j].caller) + 1 {
      assert t.dials[..j] == s.dials[..j];
      assert s.dials[..|s.dials|] == s.dials;
    }
  }

  /** So does any step that dials nothing and leaves every caller's tries alone. */
  lemma LoggedStill(s: State, t: State)
    requires Logged(s) && t.dials == s.dials && |s.callers| <= |t.callers|
    requires forall i :: 0 <= i < |s.callers| ==> Tries(t.callers[i]) == Tries(s.callers[i])
    requires forall i :: |s.callers| <= i < |t.callers| ==> Tries(t.callers[i]) == 0
    ensures Logged(t)
  {
    forall i: nat | |s.callers| <= i < |t.callers| ensures Count(t.dials, i) == 0 {
      NoDialsNoCount(s.dials, i);
    }
  }

  lemma LoggedStep(p: Policy, s: State, e: Event)
    requires Single(s) && Bounded(p, s) && Logged(s) && Enabled(p, s, e)
    ensures Logged(Apply(p, s, e))
  {
    var t := Apply(p, s, e);
    if e.Arrive? || e.Sever? || e.Tick? {
      LoggedStill(s, t);
    } else {
      StepShape(p, s, e);
      if t.dials == s.dials {
        LoggedStill(s, t);
      } else {
        LoggedDial(s, t, e.caller);
      }
    }
  }

  ghost predicate LogSpaced(p: Policy, dials: seq<Dial>) {
    forall j :: 0 <= j < |dials| && dials[j].attempt > 1 ==> exists i :: 0 <= i < j && Precedes(p, dials[i], dials[j])
  }

  ghost predicate Dialled(p: Policy, s: State, c: nat)
    requires c < |s.callers| && Active(s.callers[c])
  {
    exists i :: 0 <= i < |s.dials| && Latest(p, s.clock, s.callers[c], c, s.dials[i])
  }

  lemma LogGrows(p: Policy, dials: seq<Dial>, d: Dial)
    requires LogSpaced(p, dials)
    requires d.attempt > 1 ==> exists i :: 0 <= i < |dials| && Precedes(p, dials[i], d)
    ensures LogSpaced(p, dials + [d])
  {
    var more := dials + [d];
    forall j | 0 <= j < |more| && more[j].attempt > 1 ensures exists i :: 0 <= i < j && Precedes(p, more[i], more[j]) {
      if j < |dials| {
        var i :| 0 <= i < j && Precedes(p, dials[i], dials[j]);
        assert Precedes(p, more[i], more[j]);
      } else {
        var i :| 0 <= i < |dials| && Precedes(p, dials[i], d);
        assert Precedes(p, more[i], more[j]);
      }
    }
  }

  /** A dial follows the caller's latest one by the pause. */
  lemma SpacedDial(p: Policy, s: State, t: State, c: nat)
    requires Spaced(p, s) && c < |s.callers| == |t.callers| && t.callers == s.callers[c := t.callers[c]]
    requires t.callers[c].Dialing? && t.clock == s.clock
    requires t.dials == s.dials + [Dial(c, t.callers[c].attempt, s.clock)]
    requires t.callers[c].attempt == 1
             || (s.callers[c].Resting? && s.callers[c].attempt + 1 == t.callers[c].attempt
                 && s.callers[c].until <= s.clock)
    ensures Spaced(p, t)
  {
    var n, d := |s.dials|, Dial(c, t.callers[c].attempt, s.clock);
    if t.callers[c].attempt != 1 {
      assert Dialled(p, s, c);
      var i :| 0 <= i < n && Latest(p, s.clock, s.callers[c], c, s.dials[i]);
      assert Precedes(p, s.dials[i], d);
    }
    LogGrows(p, s.dials, d);
    forall k | 0 <= k < |t.callers| && Active(t.callers[k]) ensures Dialled(p, t, k) {
      if k == c {
        assert Latest(p, t.clock, t.callers[c], c, t.dials[n]);
      } else {
        StillDialled(p, s, t, k);
      }
    }
  }

  lemma StillDialled(p: Policy, s: State, t: State, k: nat)
    requires k < |s.callers| && k < |t.callers| && t.callers[k] == s.callers[k]
    requires Active(s.callers[k]) && Dialled(p, s, k)
    requires s.clock <= t.clock && s.dials <= t.dials
    ensures Dialled(p, t, k)
  {
    var i :| 0 <= i < |s.dials| && Latest(p, s.clock, s.callers[k], k, s.dials[i]);
    assert Latest(p, t.clock, t.callers[k], k, t.dials[i]);
  }

  /** A step that dials nothing keeps every caller's latest dial. */
  lemma SpacedStill(p: Policy, s: State, t: State)
    requires Spaced(p, s) && t.dials == s.dials && s.clock <= t.clock && |s.callers| <= |t.callers|
    requires forall i :: 0 <= i < |s.callers| && Active(t.callers[i]) ==>
               && Active(s.callers[i]) && s.callers[i].attempt == t.callers[i].attempt
               && (t.callers[i].Resting? ==>
                     t.callers[i] == s.callers[i] || t.callers[i].until == s.clock + Pause(p, t.callers[i].attempt))
    requires forall i :: |s.callers| <= i < |t.callers| ==> !Active(t.callers[i])
    ensures Spaced(p, t)
  {
    forall k | 0 <= k < |t.callers| && Active(t.callers[k]) ensures Dialled(p, t, k) {
      assert Dialled(p, s, k);
      var i :| 0 <= i < |s.dials| && Latest(p, s.clock, s.callers[k], k, s.dials[i]);
      assert Latest(p, t.clock, t.callers[k], k, t.dials[i]);
    }
  }

  /** How an event may move a reviving caller. */
  lemma MoveShape(p: Policy, s: State, e: Event)
    requires Single(s) && Bounded(p, s) && Enabled(p, s, e) && !e.Arrive? && !e.Sever? && !e.Tick?
    ensures var t, c := Apply(p, s, e), e.caller;
            && (t.dials != s.dials ==>
                  || t.callers[c].attempt == 1
                  || (s.callers[c].Resting? && s.callers[c].until <= s.clock))
            && (t.dials == s.dials && Active(t.callers[c]) ==>
                  && Active(s.callers[c]) && s.callers[c].attempt == t.callers[c].attempt
                  && (t.callers[c].Resting? ==> t.callers[c].until == s.clock + Pause(p, t.callers[c].attempt)))
  {
    StepShape(p, s, e);
  }

  lemma SpacedStep(p: Policy, s: State, e: Event)
    requires Single(s) && Bounded(p, s) && Spaced(p, s) && Enabled(p, s, e)
    ensures Spaced(p, Apply(p, s, e))
  {
    var t := Apply(p, s, e);
    if e.Arrive? || e.Sever? || e.Tick? {
      SpacedStill(p, s, t);
    } else {
      StepShape(p, s, e);
      MoveShape(p, s, e);
      if t.dials == s.dials {
        SpacedStill(p, s, t);
      } else {
        SpacedDial(p, s, t, e.caller);
      }
    }
  }

  lemma HousedAttempt(p: Policy, s: State, e: Event)
    requires Single(s) && Bounded(p, s) && Housed(s) && Enabled(p, s, e) && (e.Dialed? || e.Authenticated?)
    ensures Housed(ApplyAttempt(p, s, e))
  {
    assert s.holder == Some(e.caller);
  }

  lemma HousedEnter(p: Policy, s: State, c: nat)
    requires Housed(s) && Enabled(p, s, Enter(c))
    ensures Housed(ApplyEnter(p, s, c))
  {
  }

  lemma HousedStep(p: Policy, s: State, e: Event)
    requires Single(s) && Bounded(p, s) && Housed(s) && Enabled(p, s, e)
    ensures Housed(Apply(p, s, e))
  {
    if e.Dialed? || e.Authenticated? {
      HousedAttempt(p, s, e);
    } else if e.Enter? {
      HousedEnter(p, s, e.caller);
    }
  }

  lemma InvStep(p: Policy, s: State, e: Event)
    requires Inv(p, s) && Enabled(p, s, e)
    ensures Inv(p, Apply(p, s, e))
  {
    SingleStep(p, s, e);
    BoundedStep(p, s, e);
    LoggedStep(p, s, e);
    CooledStep(p, s, e);
    TalliedStep(p, s, e);
    SpacedStep(p, s, e);
    HousedStep(p, s, e);
  }

  // ---- Whole runs.

  ghost predicate Legal(p: Policy, s: State, es: seq<Event>)
    requires Inv(p, s)
    decreases |es|
  {
    es == [] || (Enabled(p, s, es[0]) && (InvStep(p, s, es[0]); Legal(p, Apply(p, s, es[0]), es[1..])))
  }

  ghost function After(p: Policy, s: State, es: seq<Event>): State
    requires Inv(p, s) && Legal(p, s, es)
    decreases |es|
  {
    if es == [] then s else InvStep(p, s, es[0]); After(p, Apply(p, s, es[0]), es[1..])
  }

  /** Every run keeps the invariant. */
  lemma {:induction false} RunKeepsInv(p: Policy, s: State, es: seq<Event>)
    requires Inv(p, s) && Legal(p, s, es)
    ensures Inv(p, After(p, s, es))
    decreases |es|
  {
    if es != [] {
      InvStep(p, s, es[0]);
      RunKeepsInv(p, Apply(p, s, es[0]), es[1..]);
    }
  }

  lemma InitialInv(p: Policy)
    ensures Inv(p, INITIAL)
  {
  }

  predicate NoDrops(es: seq<Event>) {
    forall i :: 0 <= i < |es| ==> !es[i].Drop?
  }

  /** Some run, with or without dropped callers, leads to `s`. */
  ghost predicate Reachable(p: Policy, s: State, drops: bool) {
    InitialInv(p);
    exists es :: Legal(p, INITIAL, es) && After(p, INITIAL, es) == s && (drops || NoDrops(es))
  }

  lemma JustOne(p: Policy, s: State, e: Event)
    requires Inv(p, s) && Enabled(p, s, e)
    ensures Legal(p, s, [e]) && After(p, s, [e]) == Apply(p, s, e)
  {
    InvStep(p, s, e);
    assert Legal(p, Apply(p, s, e), []) && [e][1..] == [];
  }

  lemma {:induction false} OneMore(p: Policy, s: State, es: seq<Event>, e: Event)
    requires Inv(p, s) && Legal(p, s, es) && Inv(p, After(p, s, es)) && Enabled(p, After(p, s, es), e)
    ensures Legal(p, s, es + [e]) && After(p, s, es + [e]) == Apply(p, After(p, s, es), e)
    decreases |es|
  {
    if es == [] {
      assert es + [e] == [e];
      JustOne(p, s, e);
    } else {
      InvStep(p, s, es[0]);
      OneMore(p, Apply(p, s, es[0]), es[1..], e);
      assert (es + [e])[1..] == es[1..] + [e];
    }
  }

  lemma ReachableInv(p: Policy, s: State, drops: bool)
    requires Reachable(p, s, drops)
    ensures Inv(p, s)
  {
    InitialInv(p);
    var es :| Legal(p, INITIAL, es) && After(p, INITIAL, es) == s && (drops || NoDrops(es));
    RunKeepsInv(p, INITIAL, es);
  }

  /** In every reachable state at most one caller is reviving, within its attempts, and all dials are accounted for. */
  lemma OneRevivalAtATime(p: Policy, s: State, i: nat, j: nat)
    requires Reachable(p, s, true) && i < |s.callers| && j < |s.callers|
    ensures Active(s.callers[i]) && Active(s.callers[j]) ==> i == j
    ensures Count(s.dials, i) == Tries(s.callers[i]) <= p.maxAttempts
    ensures s.revivals == Revivals(s.callers)
  {
    ReachableInv(p, s, true);
  }

  /** Every dial after a caller's first follows the one before it by the backoff. */
  lemma DialsBackOff(p: Policy, s: State, j: nat)
    requires Reachable(p, s, true) && j < |s.dials| && s.dials[j].attempt > 1
    ensures exists i :: 0 <= i < j && Precedes(p, s.dials[i], s.dials[j])
  {
    ReachableInv(p, s, true);
  }

  /** Nobody dials while a failure's verdict stands. */
  lemma NoDialWhileTheVerdictStands(p: Policy, s: State, e: Event)
    requires Inv(p, s) && Enabled(p, s, e)
    ensures Apply(p, s, e).dials != s.dials ==> !VerdictStands(p, s)
  {
    if e.Wake? {
      assert Active(s.callers[e.caller]);
    }
  }

  predicate TurnedAway(g: Stage) {
    g.Done? && g.outcome in {Verdict, NoReviver, GaveUp}
  }

  lemma TurnedAwayAtTheDoor(p: Policy, s: State, c: nat)
    requires Enabled(p, s, Enter(c))
    ensures var t := ApplyEnter(p, s, c); TurnedAway(t.callers[c]) ==> t.disconnected
  {
  }

  lemma TurnedAwayAfterAnAttempt(p: Policy, s: State, e: Event)
    requires (e.Dialed? || e.Authenticated?) && Enabled(p, s, e) && Tries(s.callers[e.caller]) >= 1
    ensures var t := ApplyAttempt(p, s, e); TurnedAway(t.callers[e.caller]) ==> t.disconnected
  {
  }

  /** Whoever is turned away or gives up leaves the connection disconnected. */
  lemma TurnedAwayMeansDisconnected(p: Policy, s: State, e: Event, c: nat)
    requires Inv(p, s) && Enabled(p, s, e) && c < |s.callers| && !s.callers[c].Done?
    ensures var t := Apply(p, s, e); c < |t.callers| && (TurnedAway(t.callers[c]) ==> t.disconnected)
  {
    if e.Arrive? || e.Sever? || e.Tick? {
    } else {
      StepShape(p, s, e);
      if e.Enter? {
        TurnedAwayAtTheDoor(p, s, e.caller);
      } else if e.Dialed? || e.Authenticated? {
        TurnedAwayAfterAnAttempt(p, s, e);
      }
    }
  }

  /** Giving up is earned: every attempt was made and failed, or the budget is spent. */
  lemma GivingUpIsEarned(p: Policy, s: State, e: Event, c: nat)
    requires Inv(p, s) && Enabled(p, s, e) && c < |s.callers| && !s.callers[c].Done?
    ensures var t := Apply(p, s, e);
            && c < |t.callers|
            && (t.callers[c].Done? && t.callers[c].outcome == GaveUp ==>
                  && Active(s.callers[c]) && Count(t.dials, c) == Tries(s.callers[c])
                  && (Count(t.dials, c) == p.maxAttempts || s.clock >= s.callers[c].started + p.totalBudget)
                  && t.lastFailure == Some(s.clock))
  {
    if !e.Arrive? && !e.Sever? && !e.Tick? {
      StepShape(p, s, e);
      if e.caller == c {
        GiveUpShape(p, s, e);
      }
    }
  }

  lemma GiveUpShape(p: Policy, s: State, e: Event)
    requires Single(s) && Bounded(p, s) && Enabled(p, s, e) && !e.Arrive? && !e.Sever? && !e.Tick?
    ensures var t := Apply(p, s, e);
            t.callers[e.caller].Done? && t.callers[e.caller].outcome == GaveUp ==>
              && Active(s.callers[e.caller]) && t.dials == s.dials && t.lastFailure == Some(s.clock)
              && (Tries(s.callers[e.caller]) == p.maxAttempts
                  || s.clock >= s.callers[e.caller].started + p.totalBudget)
  {
    if e.Dialed? || e.Authenticated? {
      assert Apply(p, s, e) == ApplyAttempt(p, s, e);
    } else if e.Enter? {
      assert Apply(p, s, e) == ApplyEnter(p, s, e.caller);
    }
  }

  /** A failed attempt with attempts left is followed by its pause, and the next dial comes right after it. */
  lemma FailureRestsAndDialsAgain(p: Policy, s: State, e: Event)
    requires Inv(p, s) && Enabled(p, s, e) && (e.Dialed? || e.Authenticated?) && !e.ok
    ensures var g, t := s.callers[e.caller], Apply(p, s, e);
            && t.disconnected
            && (g.attempt < p.maxAttempts ==>
                  t.callers[e.caller] == Resting(g.attempt, g.started, s.clock + Pause(p, g.attempt)))
            && (g.attempt == p.maxAttempts ==> t.callers[e.caller] == Done(GaveUp, p.maxAttempts))
  {
    assert Apply(p, s, e) == ApplyAttempt(p, s, e);
  }

  /** What a queued caller finds, in the order it looks: each answer has exactly one reason. */
  lemma WhatAQueuedCallerFinds(p: Policy, s: State, c: nat)
    requires Inv(p, s) && Enabled(p, s, Enter(c))
    ensures var g := Apply(p, s, Enter(c)).callers[c];
            var fixed := s.revivals != s.callers[c].seen;
            var recent := s.lastFailure.Some? && s.clock - s.lastFailure.value < p.failureCooldown;
            && (g == Done(FixedByOther, 0) <==> fixed)
            && (g == Done(AlreadyUp, 0) <==> !fixed && !s.disconnected)
            && (g == Done(Verdict, 0) <==> !fixed && s.disconnected && recent)
            && (g == Done(NoReviver, 0) <==>
                  !fixed && s.disconnected && !recent && (!p.hasReviver || p.maxAttempts == 0))
            && (g == Dialing(1, s.clock) <==>
                  !fixed && s.disconnected && !recent && p.hasReviver && p.maxAttempts > 0)
  {
    assert Apply(p, s, Enter(c)) == ApplyEnter(p, s, c);
  }

  // ---- A caller queued behind a success.

  /** It waits, or it left without dialling. */
  predicate Overtaken(s: State, c: nat) {
    c < |s.callers| && Tries(s.callers[c]) == 0
    && match s.callers[c]
       case Queued(seen) => seen < s.revivals
       case Done(_, _) => true
       case Gone(_, _) => true
       case _ => false
  }

  lemma OvertakenStep(p: Policy, s: State, e: Event, c: nat)
    requires Inv(p, s) && Enabled(p, s, e) && Overtaken(s, c)
    ensures Overtaken(Apply(p, s, e), c)
  {
    if e.Arrive? || e.Sever? || e.Tick? {
    } else if e.caller != c {
      StepShape(p, s, e);
      WinShape(p, s, e);
    } else {
      assert e.Enter? || e.Drop?;
    }
  }

  /** A success overtakes everybody in the queue. */
  lemma SuccessOvertakes(p: Policy, s: State, e: Event, c: nat)
    requires Inv(p, s) && Enabled(p, s, e) && e.Authenticated? && e.ok && c < |s.callers| && s.callers[c].Queued?
    ensures Overtaken(Apply(p, s, e), c)
  {
    StepShape(p, s, e);
    WinShape(p, s, e);
  }

  lemma {:induction false} OvertakenStaysOvertaken(p: Policy, s: State, es: seq<Event>, c: nat)
    requires Inv(p, s) && Legal(p, s, es) && Overtaken(s, c)
    ensures Overtaken(After(p, s, es), c) && Count(After(p, s, es).dials, c) == 0
    decreases |es|
  {
    RunKeepsInv(p, s, es);
    if es != [] {
      InvStep(p, s, es[0]);
      OvertakenStep(p, s, es[0], c);
      OvertakenStaysOvertaken(p, Apply(p, s, es[0]), es[1..], c);
    }
  }

  /** A caller that queued before a success never dials, whatever happens afterwards. */
  lemma QueuedBehindASuccessDialsNothing(p: Policy, s: State, e: Event, es: seq<Event>, c: nat)
    requires Inv(p, s) && Enabled(p, s, e) && e.Authenticated? && e.ok && c < |s.callers| && s.callers[c].Queued?
    requires Inv(p, Apply(p, s, e)) && Legal(p, Apply(p, s, e), es)
    ensures Count(After(p, Apply(p, s, e), es).dials, c) == 0
  {
    SuccessOvertakes(p, s, e, c);
    OvertakenStaysOvertaken(p, Apply(p, s, e), es, c);
  }

  // ---- Who is told that the connection is up.

  /** It looks up, and it is authenticated. */
  predicate Usable(s: State) {
    !s.disconnected && s.established
  }

  /** The step returns success to a caller. */
  predicate TellsUp(p: Policy, s: State, e: Event)
    requires Enabled(p, s, e)
  {
    || (e.Arrive? && !s.disconnected)
    || (e.Enter? && (s.revivals != s.callers[e.caller].seen || !s.disconnected))
    || (e.Authenticated? && e.ok)
  }

  /**
  When that answer is wrong: a newcomer finds the socket installed but its authentication
  unfinished; a queued caller finds the same, or a connection that died again after somebody else
  revived it; and the reviver itself may have lost the connection meanwhile.
  */
  predicate Fooled(s: State, e: Event) {
    || (e.Arrive? && Midway(s))
    || (e.Enter? && (Midway(s) || s.disconnected))
    || (e.Authenticated? && s.disconnected)
  }

  /** In every reachable state, whoever is told that the connection is up is told the truth unless it is fooled so. */
  lemma ToldTheTruthExactlyUnlessFooled(p: Policy, s: State, e: Event)
    requires Inv(p, s) && Enabled(p, s, e) && TellsUp(p, s, e)
    ensures Usable(Apply(p, s, e)) <==> !Fooled(s, e)
  {
    if e.Enter? {
      ToldAtTheDoor(p, s, e.caller);
    } else if e.Authenticated? {
      assert Apply(p, s, e) == ApplyAttempt(p, s, e);
    } else {
      ToldOnArrival(s);
    }
  }

  lemma ToldOnArrival(s: State)
    requires Housed(s)
    ensures !s.disconnected ==> (s.established <==> !Midway(s))
  {
  }

  lemma ToldAtTheDoor(p: Policy, s: State, c: nat)
    requires Housed(s) && Enabled(p, s, Enter(c)) && TellsUp(p, s, Enter(c))
    ensures Usable(ApplyEnter(p, s, c)) <==> !Fooled(s, Enter(c))
  {
    ToldOnArrival(s);
  }

  /** Every success reported in the run was true when it was reported. */
  ghost predicate Truthful(p: Policy, s: State, es: seq<Event>)
    requires Inv(p, s) && Legal(p, s, es)
    decreases |es|
  {
    es == []
    || (InvStep(p, s, es[0]);
        && (TellsUp(p, s, es[0]) ==> Usable(Apply(p, s, es[0])))
        && Truthful(p, Apply(p, s, es[0]), es[1..]))
  }

  ghost predicate NobodyFooled(p: Policy, s: State, es: seq<Event>)
    requires Inv(p, s) && Legal(p, s, es)
    decreases |es|
  {
    es == []
    || (InvStep(p, s, es[0]);
        && !(TellsUp(p, s, es[0]) && Fooled(s, es[0]))
        && NobodyFooled(p, Apply(p, s, es[0]), es[1..]))
  }

  /** Over every run: no caller is told that an unusable connection is up if and only if nobody was fooled. */
  lemma {:induction false} RunsAreTruthfulExactlyWhenNobodyIsFooled(p: Policy, s: State, es: seq<Event>)
    requires Inv(p, s) && Legal(p, s, es)
    ensures Truthful(p, s, es) <==> NobodyFooled(p, s, es)
    decreases |es|
  {
    if es != [] {
      InvStep(p, s, es[0]);
      if TellsUp(p, s, es[0]) {
        ToldTheTruthExactlyUnlessFooled(p, s, es[0]);
      }
      RunsAreTruthfulExactlyWhenNobodyIsFooled(p, Apply(p, s, es[0]), es[1..]);
    }
  }

  // ---- Runs in which no caller is dropped.

  predicate Undropped(s: State) {
    forall i :: 0 <= i < |s.callers| ==> !s.callers[i].Gone?
  }

  lemma UndroppedStep(p: Policy, s: State, e: Event)
    requires Single(s) && Bounded(p, s) && Enabled(p, s, e) && Undropped(s) && !e.Drop?
    ensures Undropped(Apply(p, s, e))
  {
  }

  lemma {:induction false} UndroppedRun(p: Policy, s: State, es: seq<Event>)
    requires Inv(p, s) && Legal(p, s, es) && Undropped(s) && NoDrops(es)
    ensures Undropped(After(p, s, es))
    decreases |es|
  {
    if es != [] {
      InvStep(p, s, es[0]);
      UndroppedStep(p, s, es[0]);
      UndroppedRun(p, Apply(p, s, es[0]), es[1..]);
    }
  }

  /**
  Without drops: a newcomer is told wrongly exactly while the lock holder is authenticating on a
  live socket, and a queued caller exactly when the connection somebody else revived is dead again.
  */
  lemma FooledWithoutDrops(p: Policy, s: State, es: seq<Event>, e: Event)
    requires Inv(p, s) && Undropped(s) && Legal(p, s, es) && NoDrops(es)
    requires Inv(p, After(p, s, es)) && Enabled(p, After(p, s, es), e) && TellsUp(p, After(p, s, es), e)
    ensures var t := After(p, s, es);
            && (e.Arrive? ==>
                  (Usable(Apply(p, t, e))
                   <==> !(t.holder.Some? && t.callers[t.holder.value].Authenticating?)))
            && (e.Enter? ==> (Usable(Apply(p, t, e)) <==> !t.disconnected))
            && (e.Enter? && Apply(p, t, e).callers[e.caller].outcome == AlreadyUp ==> Usable(Apply(p, t, e)))
  {
    UndroppedRun(p, s, es);
    FooledHere(p, After(p, s, es), e);
  }

  lemma FooledHere(p: Policy, t: State, e: Event)
    requires Inv(p, t) && Undropped(t) && Enabled(p, t, e) && TellsUp(p, t, e)
    ensures e.Arrive? ==>
              (Usable(Apply(p, t, e)) <==> !(t.holder.Some? && t.callers[t.holder.value].Authenticating?))
    ensures e.Enter? ==>
              && (Usable(Apply(p, t, e)) <==> !t.disconnected)
              && Apply(p, t, e).callers[e.caller].Done?
              && (Apply(p, t, e).callers[e.caller].outcome == AlreadyUp ==> !t.disconnected)
  {
    ToldTheTruthExactlyUnlessFooled(p, t, e);
    MidwayWithoutDrops(t);
    if e.Enter? {
      assert Apply(p, t, e) == ApplyEnter(p, t, e.caller);
    }
  }

  lemma MidwayWithoutDrops(t: State)
    requires Single(t) && Housed(t) && Undropped(t)
    ensures Midway(t) <==> t.holder.Some? && t.callers[t.holder.value].Authenticating?
  {
  }

  /** Exactly dropping the caller that authenticates on a live socket leaves it there with nobody at it. */
  predicate Attended(s: State) {
    !s.disconnected && !s.established ==>
      s.holder.Some? && s.holder.value < |s.callers| && s.callers[s.holder.value].Authenticating?
  }

  lemma OnlyADropLeavesItUnattended(p: Policy, s: State, e: Event)
    requires Inv(p, s) && Attended(s) && Enabled(p, s, e)
    ensures Attended(Apply(p, s, e)) <==> !(e.Drop? && s.callers[e.caller].Authenticating? && !s.disconnected)
  {
    if e.Dialed? || e.Authenticated? {
      AttendedAttempt(p, s, e);
    } else if e.Enter? {
      AttendedEnter(p, s, e.caller);
    } else if e.Drop? {
      assert s.callers[e.caller].Authenticating? ==> s.socket == Some(e.caller) && s.holder == Some(e.caller);
    }
  }

  lemma AttendedAttempt(p: Policy, s: State, e: Event)
    requires Single(s) && Bounded(p, s) && Attended(s) && Enabled(p, s, e) && (e.Dialed? || e.Authenticated?)
    ensures Attended(ApplyAttempt(p, s, e))
  {
    assert s.holder == Some(e.caller);
  }

  lemma AttendedEnter(p: Policy, s: State, c: nat)
    requires Attended(s) && Enabled(p, s, Enter(c))
    ensures Attended(ApplyEnter(p, s, c))
  {
  }

  // ---- The wrong answers, one reachable state for each.

  /** States that hold the initial one and are closed under every step, or every step but drops. */
  ghost predicate Closed(p: Policy, runs: iset<State>, drops: bool) {
    && INITIAL in runs
    && forall s, e :: s in runs && Single(s) && Bounded(p, s) && Enabled(p, s, e) && (drops || !e.Drop?) ==>
                        Apply(p, s, e) in runs
  }

  lemma ReachableStep(p: Policy, s: State, e: Event, drops: bool)
    requires Reachable(p, s, drops) && Inv(p, s) && Enabled(p, s, e) && (drops || !e.Drop?)
    ensures Reachable(p, Apply(p, s, e), drops)
  {
    InitialInv(p);
    var es :| Legal(p, INITIAL, es) && After(p, INITIAL, es) == s && (drops || NoDrops(es));
    OneMore(p, INITIAL, es, e);
  }

  lemma ReachableIsClosed(p: Policy, drops: bool)
    ensures Closed(p, (iset s: State | Reachable(p, s, drops)), drops)
  {
    InitialInv(p);
    assert Legal(p, INITIAL, []) && After(p, INITIAL, []) == INITIAL;
    forall s, e | Reachable(p, s, drops) && Single(s) && Bounded(p, s) && Enabled(p, s, e) && (drops || !e.Drop?)
      ensures Reachable(p, Apply(p, s, e), drops)
    {
      ReachableInv(p, s, drops);
      ReachableStep(p, s, e, drops);
    }
  }

  lemma Onward(p: Policy, runs: iset<State>, drops: bool, s: State, e: Event) returns (t: State)
    requires Closed(p, runs, drops) && s in runs && Single(s) && Bounded(p, s)
    requires Enabled(p, s, e) && (drops || !e.Drop?)
    ensures t == Apply(p, s, e) && t in runs && Single(t) && Bounded(p, t)
  {
    SingleStep(p, s, e);
    BoundedStep(p, s, e);
    t := Apply(p, s, e);
  }

  lemma FirstInQueue(p: Policy, runs: iset<State>, drops: bool) returns (s: State)
    requires Closed(p, runs, drops)
    ensures s in runs && Single(s) && Bounded(p, s)
    ensures s == State(true, true, None, 0, None, None, 0, [Queued(0)], [])
  {
    s := Onward(p, runs, drops, INITIAL, Sever);
    s := Onward(p, runs, drops, s, Arrive);
    s := Onward(p, runs, drops, s, Look(0));
  }

  lemma FirstDialled(p: Policy, runs: iset<State>, drops: bool) returns (s: State)
    requires Closed(p, runs, drops) && p.hasReviver && p.maxAttempts >= 1
    ensures s in runs && Single(s) && Bounded(p, s)
    ensures s == State(false, false, Some(0), 0, Some(0), None, 0, [Authenticating(1, 0)], [Dial(0, 1, 0)])
  {
    s := FirstInQueue(p, runs, drops);
    s := Onward(p, runs, drops, s, Enter(0));
    s := Onward(p, runs, drops, s, Dialed(0, true));
  }

  lemma NewcomerFooled(p: Policy, runs: iset<State>) returns (s: State)
    requires Closed(p, runs, false) && p.hasReviver && p.maxAttempts >= 1
    ensures s in runs && !s.established && |s.callers| == 2 && s.callers[1] == Done(AlreadyUp, 0)
  {
    s := FirstDialled(p, runs, false);
    s := Onward(p, runs, false, s, Arrive);
  }

  /** With nobody dropped, a second caller is told that an unauthenticated connection is up. */
  lemma ToldUpWhileAuthenticating(p: Policy)
    requires p.hasReviver && p.maxAttempts >= 1
    ensures exists s :: Reachable(p, s, false) && !s.established
                        && |s.callers| == 2 && s.callers[1] == Done(AlreadyUp, 0)
  {
    ReachableIsClosed(p, false);
    var s := NewcomerFooled(p, iset s: State | Reachable(p, s, false));
  }

  lemma TwoInQueue(p: Policy, runs: iset<State>) returns (s: State)
    requires Closed(p, runs, false)
    ensures s in runs && Single(s) && Bounded(p, s)
    ensures s == State(true, true, None, 0, None, None, 0, [Queued(0), Queued(0)], [])
  {
    s := FirstInQueue(p, runs, false);
    s := Onward(p, runs, false, s, Arrive);
    s := Onward(p, runs, false, s, Look(1));
  }

  lemma FirstRevives(p: Policy, runs: iset<State>) returns (s: State)
    requires Closed(p, runs, false) && p.hasReviver && p.maxAttempts >= 1
    ensures s in runs && Single(s) && Bounded(p, s)
    ensures s == State(false, true, Some(0), 1, None, None, 0, [Done(Revived, 1), Queued(0)], [Dial(0, 1, 0)])
  {
    s := TwoInQueue(p, runs);
    s := Onward(p, runs, false, s, Enter(0));
    s := Onward(p, runs, false, s, Dialed(0, true));
    s := Onward(p, runs, false, s, Authenticated(0, true));
  }

  lemma SecondFooled(p: Policy, runs: iset<State>) returns (s: State)
    requires Closed(p, runs, false) && p.hasReviver && p.maxAttempts >= 1
    ensures s in runs && s.disconnected && |s.callers| == 2 && s.callers[1] == Done(FixedByOther, 0)
  {
    s := FirstRevives(p, runs);
    s := Onward(p, runs, false, s, Sever);
    s := Onward(p, runs, false, s, Enter(1));
  }

  /** With nobody dropped, a queued caller is told success on a connection that died again. */
  lemma ToldFixedWhileDead(p: Policy)
    requires p.hasReviver && p.maxAttempts >= 1
    ensures exists s :: Reachable(p, s, false) && s.disconnected
                        && |s.callers| == 2 && s.callers[1] == Done(FixedByOther, 0)
  {
    ReachableIsClosed(p, false);
    var s := SecondFooled(p, iset s: State | Reachable(p, s, false));
  }

  lemma ReviverFooled(p: Policy, runs: iset<State>) returns (s: State)
    requires Closed(p, runs, false) && p.hasReviver && p.maxAttempts >= 1
    ensures s in runs && s.disconnected && |s.callers| == 1 && s.callers[0] == Done(Revived, 1)
  {
    s := FirstDialled(p, runs, false);
    s := Onward(p, runs, false, s, Sever);
    s := Onward(p, runs, false, s, Authenticated(0, true));
  }

  /** With nobody dropped, a reviver is told success on a connection that died while it authenticated. */
  lemma ReviverToldUpWhileDead(p: Policy)
    requires p.hasReviver && p.maxAttempts >= 1
    ensures exists s :: Reachable(p, s, false) && s.disconnected
                        && |s.callers| == 1 && s.callers[0] == Done(Revived, 1)
  {
    ReachableIsClosed(p, false);
    var s := ReviverFooled(p, iset s: State | Reachable(p, s, false));
  }

  lemma LeftHalfBuilt(p: Policy, runs: iset<State>) returns (s: State)
    requires Closed(p, runs, true) && p.hasReviver && p.maxAttempts >= 1
    ensures s in runs && !s.established && s.holder == None && |s.callers| == 2 && s.callers[1] == Done(AlreadyUp, 0)
  {
    s := FirstDialled(p, runs, true);
    s := Onward(p, runs, true, s, Drop(0));
    s := Onward(p, runs, true, s, Arrive);
  }

  /** A dropped reviver leaves an unauthenticated connection with nobody at it, and the next caller is told it is up. */
  lemma DroppedReviverLeavesItHalfBuilt(p: Policy)
    requires p.hasReviver && p.maxAttempts >= 1
    ensures exists s :: Reachable(p, s, true) && !s.established && s.holder == None
                        && |s.callers| == 2 && s.callers[1] == Done(AlreadyUp, 0)
  {
    ReachableIsClosed(p, true);
    var s := LeftHalfBuilt(p, iset s: State | Reachable(p, s, true));
  }
}
