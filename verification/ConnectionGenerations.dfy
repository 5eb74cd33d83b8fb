/**
What a revival or a departing caller can break: one reachable state for each hypothesis the
routing and credit theorems cannot do without.
*/
module ConnectionGenerations {
  import opened Bytes
  import opened ConnectionState
  import opened ConnectionSteps
  import opened ConnectionSafety
  import opened ConnectionRouting
  import opened ConnectionCredits

  lemma {:induction false} AfterAppend(s: State, events: seq<Event>, e: Event)
    requires Shape(s) && Legal(s, events) && Shape(After(s, events)) && Enabled(After(s, events), e)
    ensures Legal(s, events + [e]) && After(s, events + [e]) == Apply(After(s, events), e)
    decreases |events|
  {
    if events == [] {
      assert events + [e] == [e];
      assert Legal(Apply(s, e), []);
    } else {
      AfterAppend(Apply(s, events[0]), events[1..], e);
      assert (events + [e])[1..] == events[1..] + [e];
    }
  }

  /** A set of states that holds the initial one and is closed under every step. */
  ghost predicate Closed(runs: iset<State>) {
    INITIAL in runs && forall s, e :: s in runs && Shape(s) && Enabled(s, e) ==> Apply(s, e) in runs
  }

  lemma ReachableIsClosed()
    ensures Closed(iset s: State | Reachable(s))
  {
    assert Legal(INITIAL, []) && After(INITIAL, []) == INITIAL;
    forall s, e | Reachable(s) && Shape(s) && Enabled(s, e) ensures Reachable(Apply(s, e)) {
      ReachableStep(s, e);
    }
  }

  lemma ReachableStep(s: State, e: Event)
    requires Reachable(s) && Shape(s) && Enabled(s, e)
    ensures Reachable(Apply(s, e))
  {
    var events :| Legal(INITIAL, events) && After(INITIAL, events) == s;
    AfterAppend(INITIAL, events, e);
  }

  lemma Step(runs: iset<State>, s: State, e: Event) returns (r: State)
    requires Closed(runs) && s in runs && Shape(s) && Enabled(s, e)
    ensures r in runs && Shape(r) && r == Apply(s, e)
  {
    r := Apply(s, e);
  }

  /** A new call that gets its credits at once. */
  lemma Open(runs: iset<State>, s: State, charges: seq<nat>) returns (r: State)
    requires Closed(runs)
    requires s in runs && Shape(s) && Enabled(s, Start(charges))
    requires !s.core.pool.closed && Reserve(charges) <= s.core.pool.permits
    ensures r in runs && Shape(r)
    ensures r == s.(callers := s.callers + [Caller(charges, Held(PoolIndex(s)), [], 0, Unsent, true)],
                    core := Spend(s.core, Reserve(charges)))
  {
    r := Step(runs, s, Start(charges));
    var c := |s.callers|;
    r := Step(runs, r, Acquire(c));
  }

  lemma TakeId(runs: iset<State>, s: State, c: nat) returns (r: State)
    requires Closed(runs)
    requires s in runs && Shape(s) && Enabled(s, Number(c)) && s.callers[c].chans == []
    ensures r in runs && Shape(r)
    ensures var charge := s.callers[c].charges[0];
            r == s.(callers := s.callers[c := s.callers[c].(chans := [|s.slots|])],
                    slots := s.slots + [Slot(c, Epoch(s), s.core.next, charge, Allocated, None, false, false)],
                    core := s.core.(next := s.core.next + charge))
  {
    assert s.callers[c].chans + [|s.slots|] == [|s.slots|];
    r := Step(runs, s, Number(c));
  }

  /** A caller holding credits for one sub-request takes its id and registers it. */
  lemma Enlist(runs: iset<State>, s: State, c: nat) returns (r: State)
    requires Closed(runs)
    requires s in runs && Shape(s) && Holding(s, c) && !s.core.disconnected
    requires |s.callers[c].charges| == 1 && s.callers[c].chans == [] && s.callers[c].enrolled == 0
    requires s.core.next !in s.core.waiters
    ensures r in runs && Shape(r)
    ensures var charge := s.callers[c].charges[0];
            r == s.(callers := s.callers[c := s.callers[c].(chans := [|s.slots|], enrolled := 1)],
                    slots := s.slots + [Slot(c, Epoch(s), s.core.next, charge, Waiting, None, false, false)],
                    core := s.core.(waiters := s.core.waiters[s.core.next := |s.slots|],
                                    next := s.core.next + charge))
  {
    r := TakeId(runs, s, c);
    r := Step(runs, r, Register(c));
    assert r.callers == s.callers[c := s.callers[c].(chans := [|s.slots|], enrolled := 1)];
    assert r.slots == s.slots + [Slot(c, Epoch(s), s.core.next, s.callers[c].charges[0], Waiting, None, false, false)];
  }

  /** It hands its frame over, and the writer sends it. */
  lemma Send(runs: iset<State>, s: State, c: nat) returns (r: State)
    requires Closed(runs)
    requires s in runs && Shape(s) && Enabled(s, Enqueue(c))
    ensures r in runs && Shape(r)
    ensures r == s.(callers := s.callers[c := s.callers[c].(wire := OnWire(s.queue))])
  {
    r := Step(runs, s, Enqueue(c));
    r := Step(runs, r, Write(c));
  }

  lemma Tear(runs: iset<State>, s: State) returns (r: State)
    requires Closed(runs)
    requires s in runs && Shape(s) && s.install == 0
    ensures r in runs && Shape(r)
    ensures r == s.(core := Close(Sever(s.core)).(pool := FRESH_POOL), slots := DoomAll(s.slots, Disconnected),
                    pastPools := s.pastPools + [s.core.pool.(closed := true)],
                    granted := s.granted + [NO_GRANTS], install := 3)
  {
    var r1 := Step(runs, s, InstallDrain);
    var r2 := Step(runs, r1, InstallClose);
    r := Step(runs, r2, ResetPool);
  }

  lemma Rebuild(runs: iset<State>, s: State) returns (r: State)
    requires Closed(runs)
    requires s in runs && Shape(s) && s.install == 3
    ensures r in runs && Shape(r)
    ensures r == s.(core := s.core.(next := 0, abandoned := []), pastTops := s.pastTops + [s.core.next],
                    departed := [], install := 5)
  {
    r := Step(runs, s, ResetIds);
    r := Step(runs, r, ClearAbandoned);
  }

  lemma Resume(runs: iset<State>, s: State) returns (r: State)
    requires Closed(runs)
    requires s in runs && Shape(s) && s.install == 5
    ensures r in runs && Shape(r)
    ensures r == s.(core := s.core.(disconnected := false), queue := s.queue + 1, install := 0)
  {
    r := Step(runs, s, SwapQueue);
    r := Step(runs, r, Reopen);
  }

  /** A whole revival, with nobody else running. */
  lemma Revive(runs: iset<State>, s: State) returns (r: State)
    requires Closed(runs)
    requires s in runs && Shape(s) && s.install == 0
    ensures r in runs && Shape(r)
    ensures r == State(Core(map[], false, 0, [], FRESH_POOL, s.core.tally), DoomAll(s.slots, Disconnected),
                       s.callers, s.pastPools + [s.core.pool.(closed := true)], s.granted + [NO_GRANTS],
                       s.pastTops + [s.core.next], s.queue + 1, 0, [], s.routed, s.closing)
  {
    r := Tear(runs, s);
    r := Rebuild(runs, r);
    r := Resume(runs, r);
  }

  const ONE: seq<nat> := [1]

  lemma OneIsOne()
    ensures Total(ONE) == 1 && Reserve(ONE) == 1
  {
    assert ONE[..0] == [];
  }

  /** A fresh connection with one call that holds the only credit. */
  lemma FirstCall(runs: iset<State>) returns (s: State)
    requires Closed(runs)
    ensures s in runs && Shape(s)
    ensures s == State(Core(map[], false, 0, [], Pool(0, false), Tally(0, 0, 0, 0)), [],
                       [Caller(ONE, Held(0), [], 0, Unsent, true)], [], [NO_GRANTS], [], 0, 0, [], 0, 0)
  {
    OneIsOne();
    s := Open(runs, INITIAL, ONE);
  }

  /** The same call once its waiter is registered. */
  lemma FirstWaiter(runs: iset<State>) returns (s: State)
    requires Closed(runs)
    ensures s in runs && Shape(s)
    ensures s == State(Core(map[0 := 0], false, 1, [], Pool(0, false), Tally(0, 0, 0, 0)),
                       [Slot(0, 0, 0, 1, Waiting, None, false, false)],
                       [Caller(ONE, Held(0), [0], 1, Unsent, true)], [], [NO_GRANTS], [], 0, 0, [], 0, 0)
  {
    s := FirstCall(runs);
    s := Enlist(runs, s, 0);
  }

  lemma SumOfTwo(a: Caller, b: Caller, share: Share, p: nat)
    ensures Sum([a, b], share, p) == Weight(a, share, p) + Weight(b, share, p)
  {
    SumAppend([], a, share, p);
    SumAppend([a], b, share, p);
    assert [] + [a] == [a] && [a] + [b] == [a, b];
  }

  lemma DroppedBeforeTheAck(runs: iset<State>) returns (s: State)
    requires Closed(runs)
    ensures s in runs && Shape(s)
    ensures s == State(Core(map[0 := 0], false, 1, [], Pool(1, false), Tally(0, 0, 0, 0)),
                       [Slot(0, 0, 0, 1, Waiting, None, false, false)],
                       [Caller(ONE, Refunded(0, 0), [0], 1, OnWire(0), false)], [], [NO_GRANTS], [], 0, 0, [], 0, 0)
  {
    OneIsOne();
    s := FirstWaiter(runs);
    s := Send(runs, s, 0);
    s := Step(runs, s, Abandon(0));
    s := Step(runs, s, Refund(0));
  }

  lemma SecondCall(runs: iset<State>, s: State) returns (r: State)
    requires Closed(runs)
    requires s in runs && Shape(s) && |s.callers| == 1 && !s.core.disconnected && s.core.pool == Pool(1, false)
    requires s.core.next !in s.core.waiters
    ensures r in runs && Shape(r)
    ensures r.callers == s.callers + [Caller(ONE, Held(PoolIndex(s)), [|s.slots|], 1, Unsent, true)]
    ensures r.slots == s.slots + [Slot(1, Epoch(s), s.core.next, 1, Waiting, None, false, false)]
    ensures r.core.waiters == s.core.waiters[s.core.next := |s.slots|]
    ensures r.granted == s.granted && r.queue == s.queue && !r.core.disconnected
  {
    OneIsOne();
    r := Open(runs, s, ONE);
    r := Enlist(runs, r, 1);
  }

  lemma DroppedCallerOverspendsIn(runs: iset<State>) returns (s: State)
    requires Closed(runs)
    ensures s in runs && Shape(s) && s.granted == [NO_GRANTS] && Sum(s.callers, Wired, 0) == 2
  {
    OneIsOne();
    s := DroppedBeforeTheAck(runs);
    var a := s.callers[0];
    s := SecondCall(runs, s);
    s := Send(runs, s, 1);
    assert s.callers == [a, s.callers[1]];
    SumOfTwo(a, s.callers[1], Wired, 0);
  }

  /**
  A caller dropped between handing its frame over and hearing back is refunded although the writer
  still sends the frame: two charges on the wire against the one credit a fresh connection has.
  */
  lemma DroppedCallerOverspends()
    ensures exists s :: Reachable(s) && Shape(s) && s.granted == [NO_GRANTS] && Sum(s.callers, Wired, 0) == 2
  {
    ReachableIsClosed();
    var s := DroppedCallerOverspendsIn(iset s: State | Reachable(s));
  }

  lemma StraddlingRefundInflatesIn(runs: iset<State>) returns (s: State)
    requires Closed(runs)
    ensures s in runs && Shape(s) && s.core.pool.permits == 2 && s.granted[PoolIndex(s)] == NO_GRANTS
  {
    OneIsOne();
    s := FirstCall(runs);
    s := Step(runs, s, Abandon(0));
    s := Revive(runs, s);
    s := Step(runs, s, Refund(0));
  }

  /** A refund that straddles a revival leaves the new session two credits where the server gave one. */
  lemma StraddlingRefundInflates()
    ensures exists s :: Reachable(s) && Shape(s) && s.core.pool.permits == 2 && s.granted[PoolIndex(s)] == NO_GRANTS
  {
    ReachableIsClosed();
    var s := StraddlingRefundInflatesIn(iset s: State | Reachable(s));
  }

  lemma RevivedHolder(runs: iset<State>) returns (s: State)
    requires Closed(runs)
    ensures s in runs && Shape(s)
    ensures s == State(FRESH_CORE, [], [Caller(ONE, Held(0), [], 0, Unsent, true)],
                       [Pool(0, true)], [NO_GRANTS, NO_GRANTS], [0], 1, 0, [], 0, 0)
  {
    s := FirstCall(runs);
    s := Revive(runs, s);
  }

  lemma StaleSender(runs: iset<State>) returns (s: State)
    requires Closed(runs)
    ensures s in runs && Shape(s)
    ensures s == State(Core(map[0 := 0], false, 1, [], FRESH_POOL, Tally(0, 0, 0, 0)),
                       [Slot(0, 1, 0, 1, Waiting, None, false, false)],
                       [Caller(ONE, Held(0), [0], 1, OnWire(1), true)], [Pool(0, true)],
                       [NO_GRANTS, NO_GRANTS], [0], 1, 0, [], 0, 0)
  {
    s := RevivedHolder(runs);
    s := Enlist(runs, s, 0);
    s := Send(runs, s, 0);
  }

  lemma StaleReservationOverspendsIn(runs: iset<State>) returns (s: State)
    requires Closed(runs)
    ensures s in runs && Shape(s) && s.granted == [NO_GRANTS, NO_GRANTS] && Sum(s.callers, Wired, 1) == 2
  {
    OneIsOne();
    s := StaleSender(runs);
    var a := s.callers[0];
    s := SecondCall(runs, s);
    s := Send(runs, s, 1);
    assert s.callers == [a, s.callers[1]];
    SumOfTwo(a, s.callers[1], Wired, 1);
  }

  /**
  Credits reserved from the old session can be spent on the new socket: two charges on a wire
  whose server gave one credit.
  */
  lemma StaleReservationOverspends()
    ensures exists s :: Reachable(s) && Shape(s) && s.granted == [NO_GRANTS, NO_GRANTS] && Sum(s.callers, Wired, 1) == 2
  {
    ReachableIsClosed();
    var s := StaleReservationOverspendsIn(iset s: State | Reachable(s));
  }

  lemma StrangerRegistered(runs: iset<State>) returns (s: State)
    requires Closed(runs)
    ensures s in runs && Shape(s) && |s.callers| == 2 && |s.slots| == 2
    ensures s.core.waiters == map[0 := 1] && s.slots[1].phase == Waiting && s.slots[0].id == 0
    ensures Enabled(s, Abandon(0)) && s.slots[0].owner == 0
    ensures !s.slots[0].phase.Allocated? && !s.slots[0].closed
    ensures s.slots[1].epoch == 1 && s.slots[1].inbox.None? && !s.slots[1].closed && s.queue == 1
  {
    s := FirstWaiter(runs);
    s := Revive(runs, s);
    s := SecondCall(runs, s);
  }

  lemma StaleGuardTakesAStrangersWaiterIn(runs: iset<State>) returns (s: State)
    requires Closed(runs)
    ensures s in runs && Shape(s) && |s.slots| == 2 && s.slots[1].phase == Gone(Evicted)
  {
    s := StrangerRegistered(runs);
    s := Step(runs, s, Abandon(0));
    s := Step(runs, s, DropGuard(0));
  }

  /** After a revival the guard of an old request can take away a new request's waiter. */
  lemma StaleGuardTakesAStrangersWaiter()
    ensures exists s :: Reachable(s) && Shape(s) && |s.slots| == 2 && s.slots[1].phase == Gone(Evicted)
  {
    ReachableIsClosed();
    var s := StaleGuardTakesAStrangersWaiterIn(iset s: State | Reachable(s));
  }

  lemma StaleRemovalTakesAStrangersWaiterIn(runs: iset<State>) returns (s: State)
    requires Closed(runs)
    ensures s in runs && Shape(s) && |s.slots| == 2 && s.slots[1].phase == Gone(Evicted)
  {
    s := StrangerRegistered(runs);
    s := Step(runs, s, RemoveWaiter(0));
  }

  /** So can the removal after its send failed, with nobody dropped at all. */
  lemma StaleRemovalTakesAStrangersWaiter()
    ensures exists s :: Reachable(s) && Shape(s) && |s.slots| == 2 && s.slots[1].phase == Gone(Evicted)
  {
    ReachableIsClosed();
    var s := StaleRemovalTakesAStrangersWaiterIn(iset s: State | Reachable(s));
  }

  lemma AnswerArrives(runs: iset<State>, f: Frame) returns (s: State)
    requires Closed(runs) && Classify(f) == Route(0, Answer(f)) && f.socket == 0
    ensures s in runs && Shape(s) && |s.callers| == 1 && |s.slots| == 1
    ensures s.callers[0].hold == Spent(0) && s.callers[0].wire == OnWire(0) && s.core.waiters == map[]
    ensures s.slots[0].inbox == Some(Answer(f)) && s.core.tally == Tally(1, 0, 0, 0)
  {
    s := FirstWaiter(runs);
    s := Send(runs, s, 0);
    s := Step(runs, s, Commit(0));
    s := Step(runs, s, RouteFrame(f));
    s := Step(runs, s, Deliver(0));
  }

  /** The ordinary case can happen: a call sends, pays, and is handed any genuine answer to its id. */
  lemma CallIsAnswered(f: Frame)
    requires Genuine(f, 0) && f.socket == 0
    ensures exists s :: Reachable(s) && Shape(s) && |s.callers| == 1 && |s.slots| == 1
                        && s.callers[0].hold == Spent(0) && s.callers[0].wire == OnWire(0)
                        && s.slots[0].inbox == Some(Answer(f)) && s.core.tally == Tally(1, 0, 0, 0)
  {
    ReachableIsClosed();
    var s := AnswerArrives((iset s: State | Reachable(s)), f);
  }

  /** A request numbered before a revival, and a new one registered after it. */
  lemma NumberedBefore(runs: iset<State>) returns (s: State)
    requires Closed(runs)
    ensures s in runs && Shape(s) && |s.slots| == 2 && !s.core.disconnected && s.core.waiters == map[0 := 1]
    ensures s.slots[0].id == 0 && Enabled(s, Register(0)) && s.callers[0].chans == [0] && s.callers[0].enrolled == 0
  {
    s := FirstCall(runs);
    s := TakeId(runs, s, 0);
    s := Revive(runs, s);
    s := SecondCall(runs, s);
  }

  lemma LateRegistrationTakesAStrangersWaiterIn(runs: iset<State>) returns (s: State)
    requires Closed(runs)
    ensures s in runs && Shape(s) && |s.slots| == 2 && s.slots[1].phase == Gone(Overwritten)
  {
    s := NumberedBefore(runs);
    s := Step(runs, s, Register(0));
  }

  /** A request numbered before a revival and registered after it overwrites a new request's waiter. */
  lemma LateRegistrationTakesAStrangersWaiter()
    ensures exists s :: Reachable(s) && Shape(s) && |s.slots| == 2 && s.slots[1].phase == Gone(Overwritten)
  {
    ReachableIsClosed();
    var s := LateRegistrationTakesAStrangersWaiterIn(iset s: State | Reachable(s));
  }

  /** An answer to id 0 that came over the first socket. */
  const OLD_ANSWER := Frame(0, 0, Other(0), None, true, [], 0)

  lemma OldAnswerReachesANewWaiterIn(runs: iset<State>) returns (s: State)
    requires Closed(runs)
    ensures s in runs && Shape(s) && |s.slots| == 2
    ensures s.slots[1].epoch == 1 && s.slots[1].inbox == Some(Answer(OLD_ANSWER))
  {
    s := StrangerRegistered(runs);
    s := Step(runs, s, RouteFrame(OLD_ANSWER));
    s := Step(runs, s, Deliver(1));
  }

  /** A receiver that finishes its last batch after a revival hands the old server's answer to a new request. */
  lemma OldAnswerReachesANewWaiter()
    ensures exists s :: Reachable(s) && Shape(s) && |s.slots| == 2
                        && s.slots[1].epoch == 1 && s.slots[1].inbox == Some(Answer(OLD_ANSWER))
  {
    ReachableIsClosed();
    var s := OldAnswerReachesANewWaiterIn(iset s: State | Reachable(s));
  }

  /** A fresh connection whose first server grants ten credits after the revival put the new pool in place. */
  lemma StaleGrantBanked(runs: iset<State>) returns (s: State)
    requires Closed(runs)
    ensures s in runs && Shape(s)
    ensures s == State(Core(map[], true, 0, [], Pool(11, false), Tally(0, 0, 0, 0)), [], [], [Pool(1, true)],
                       [Grants(10, 10, 0), Grants(0, 0, 10)], [], 0, 3, [], 0, 0)
  {
    s := Tear(runs, INITIAL);
    assert DoomAll(INITIAL.slots, Disconnected) == [];
    s := Step(runs, s, Bank(Frame(0, 10, Pending, None, true, [], 0)));
    assert s.granted == [Grants(10, 10, 0), Grants(0, 0, 10)];
  }

  lemma StaleGrantOnHand(runs: iset<State>) returns (s: State)
    requires Closed(runs)
    ensures s in runs && Shape(s)
    ensures s == State(Core(map[], false, 0, [], Pool(11, false), Tally(0, 0, 0, 0)), [], [], [Pool(1, true)],
                       [Grants(10, 10, 0), Grants(0, 0, 10)], [0], 1, 0, [], 0, 0)
  {
    s := StaleGrantBanked(runs);
    s := Rebuild(runs, s);
    s := Resume(runs, s);
  }

  lemma StaleGrantCalled(runs: iset<State>, charges: seq<nat>) returns (s: State)
    requires Closed(runs) && charges == [11] && Reserve(charges) == 11
    ensures s in runs && Shape(s) && s.granted == [Grants(10, 10, 0), Grants(0, 0, 10)] && s.queue == 1
    ensures s.callers == [Caller(charges, Held(1), [0], 1, Unsent, true)]
  {
    s := StaleGrantOnHand(runs);
    s := Open(runs, s, charges);
    s := Enlist(runs, s, 0);
  }

  lemma ElevenIsEleven(charges: seq<nat>)
    requires charges == [11]
    ensures Total(charges) == 11 && Reserve(charges) == 11
  {
    assert charges[..0] == [];
  }

  lemma StaleGrantOverspendsIn(runs: iset<State>) returns (s: State)
    requires Closed(runs)
    ensures s in runs && Shape(s) && AllFunded(s.callers)
    ensures s.granted == [Grants(10, 10, 0), Grants(0, 0, 10)] && Sum(s.callers, Wired, 1) == 11
  {
    var charges := [11];
    ElevenIsEleven(charges);
    s := StaleGrantCalled(runs, charges);
    s := Send(runs, s, 0);
    SumOfOne(s.callers, Wired, 1);
  }

  /**
  The old server's last grant can be banked into the new pool: eleven charges on a wire whose server
  granted nothing beyond the first credit, although every frame was paid for by its own pool.
  */
  lemma StaleGrantOverspends()
    ensures exists s :: Reachable(s) && Shape(s) && AllFunded(s.callers)
                        && s.granted == [Grants(10, 10, 0), Grants(0, 0, 10)] && Sum(s.callers, Wired, 1) == 11
  {
    ReachableIsClosed();
    var s := StaleGrantOverspendsIn(iset s: State | Reachable(s));
  }

  lemma StaleFrameReachesTheNewSocketIn(runs: iset<State>) returns (s: State)
    requires Closed(runs)
    ensures s in runs && Shape(s) && |s.callers| == 1 && s.callers[0].wire == OnWire(1)
                        && s.callers[0].chans == [0] && |s.slots| == 1 && s.slots[0].epoch == 0
  {
    s := FirstWaiter(runs);
    s := Revive(runs, s);
    s := Send(runs, s, 0);
  }

  /**
  A frame numbered for the old session can reach the new socket: its id comes from generation 0,
  its queue belongs to generation 1.
  */
  lemma StaleFrameReachesTheNewSocket()
    ensures exists s :: Reachable(s) && Shape(s) && |s.callers| == 1 && s.callers[0].wire == OnWire(1)
                        && s.callers[0].chans == [0] && |s.slots| == 1 && s.slots[0].epoch == 0
  {
    ReachableIsClosed();
    var s := StaleFrameReachesTheNewSocketIn(iset s: State | Reachable(s));
  }

  /** A whole revival and a new registration between the two lock sections of one guard. */
  lemma DepartureUnnoted(runs: iset<State>) returns (s: State)
    requires Closed(runs)
    ensures s in runs && Shape(s) && |s.callers| == 1 && |s.slots| == 1
    ensures s.core.waiters == map[] && !s.core.disconnected && s.core.pool == FRESH_POOL && s.core.next == 0
    ensures s.slots[0] == Slot(0, 0, 0, 1, Gone(GuardDropped), None, true, true) && Epoch(s) == 1
    ensures s.core.abandoned == []
  {
    s := FirstWaiter(runs);
    s := Step(runs, s, Abandon(0));
    s := Step(runs, s, DropGuard(0));
    s := Revive(runs, s);
  }

  lemma LateNotePollutesTheRingIn(runs: iset<State>) returns (s: State)
    requires Closed(runs)
    ensures s in runs && Shape(s) && OrdinaryExits(s.slots) && 0 in s.core.waiters && 0 in s.core.abandoned
  {
    s := DepartureUnnoted(runs);
    s := SecondCall(runs, s);
    s := Step(runs, s, NoteDeparture(0));
    assert s.core.abandoned[|s.core.abandoned| - 1] == 0;
  }

  /**
  Although every removal came in time, a note that comes a revival late puts an id into the ring
  while a new request is waiting under it.
  */
  lemma LateNotePollutesTheRing()
    ensures exists s :: Reachable(s) && Shape(s) && OrdinaryExits(s.slots)
                        && 0 in s.core.waiters && 0 in s.core.abandoned
  {
    ReachableIsClosed();
    var s := LateNotePollutesTheRingIn(iset s: State | Reachable(s));
  }

  /** A fresh connection torn down, with the close still to come. */
  lemma TornDown(runs: iset<State>) returns (s: State)
    requires Closed(runs)
    ensures s in runs && Shape(s)
    ensures s == State(Core(map[], true, 0, [], FRESH_POOL, Tally(0, 0, 0, 0)),
                       [], [], [], [NO_GRANTS], [], 0, 0, [], 0, 1)
  {
    s := Step(runs, INITIAL, Drain(Disconnected));
  }

  lemma LateCloseStarvesALiveConnectionIn(runs: iset<State>) returns (s: State)
    requires Closed(runs)
    ensures s in runs && Shape(s) && s.install == 0 && !s.core.disconnected && s.core.pool.closed
  {
    s := TornDown(runs);
    s := Revive(runs, s);
    s := Step(runs, s, ClosePool);
  }

  /** A teardown whose close comes a revival late leaves a connection that is up and refuses every send. */
  lemma LateCloseStarvesALiveConnection()
    ensures exists s :: Reachable(s) && Shape(s) && s.install == 0 && !s.core.disconnected
                        && s.core.pool.closed && forall c :: !Enabled(s, Acquire(c))
  {
    ReachableIsClosed();
    var s := LateCloseStarvesALiveConnectionIn(iset s: State | Reachable(s));
  }

  /** Two sub-requests of the largest charge. */
  predicate TwoLarge(charges: seq<nat>) {
    charges == [MAX_CHARGE, MAX_CHARGE]
  }

  lemma LargeTotal(charges: seq<nat>)
    requires TwoLarge(charges)
    ensures Total(charges) == 131070 && Reserve(charges) == 65535
  {
    assert charges[..1] == [MAX_CHARGE];
    assert Total(charges[..1]) == Total(charges[..1][..0]) + MAX_CHARGE;
  }

  lemma LargeBanked(runs: iset<State>) returns (s: State)
    requires Closed(runs)
    ensures s in runs && Shape(s)
    ensures s == State(Core(map[], false, 0, [], Pool(65535, false), Tally(0, 0, 0, 0)),
                       [], [], [], [Grants(65534, 0, 0)], [], 0, 0, [], 0, 0)
  {
    s := Step(runs, INITIAL, Bank(Frame(0, 65534, Pending, None, true, [], 0)));
  }

  lemma LargeCall(runs: iset<State>, charges: seq<nat>) returns (s: State)
    requires Closed(runs)
    requires TwoLarge(charges)
    ensures s in runs && Shape(s)
    ensures s == State(Core(map[], false, 0, [], Pool(0, false), Tally(0, 0, 0, 0)), [],
                       [Caller(charges, Held(0), [], 0, Unsent, true)], [], [Grants(65534, 0, 0)], [], 0, 0, [], 0, 0)
  {
    LargeTotal(charges);
    s := LargeBanked(runs);
    s := Open(runs, s, charges);
  }

  lemma LargeNumbered(runs: iset<State>, charges: seq<nat>) returns (s: State)
    requires Closed(runs)
    requires TwoLarge(charges)
    ensures s in runs && Shape(s)
    ensures s == State(Core(map[], false, 131070, [], Pool(0, false), Tally(0, 0, 0, 0)),
                       [Slot(0, 0, 0, 65535, Allocated, None, false, false),
                        Slot(0, 0, 65535, 65535, Allocated, None, false, false)],
                       [Caller(charges, Held(0), [0, 1], 0, Unsent, true)], [],
                       [Grants(65534, 0, 0)], [], 0, 0, [], 0, 0)
  {
    s := LargeCall(runs, charges);
    s := TakeId(runs, s, 0);
    assert s.callers[0].chans + [|s.slots|] == [0, 1];
    s := Step(runs, s, Number(0));
    assert s.callers == [Caller(charges, Held(0), [0, 1], 0, Unsent, true)];
    assert s.slots == [Slot(0, 0, 0, 65535, Allocated, None, false, false),
                       Slot(0, 0, 65535, 65535, Allocated, None, false, false)];
  }

  lemma LargeWaiting(runs: iset<State>, charges: seq<nat>) returns (s: State)
    requires Closed(runs)
    requires TwoLarge(charges)
    ensures s in runs && Shape(s)
    ensures |s.callers| == 1 && s.callers[0] == Caller(charges, Held(0), [0, 1], 2, Unsent, true)
    ensures s.granted == [Grants(65534, 0, 0)] && s.queue == 0
  {
    s := LargeNumbered(runs, charges);
    s := Step(runs, s, Register(0));
    s := Step(runs, s, Register(0));
  }

  lemma LargeSent(runs: iset<State>, charges: seq<nat>) returns (s: State)
    requires Closed(runs)
    requires TwoLarge(charges)
    ensures s in runs && Shape(s) && s.granted == [Grants(65534, 0, 0)]
    ensures |s.callers| == 1 && s.callers[0].charges == charges && s.callers[0].wire == OnWire(0)
  {
    s := LargeWaiting(runs, charges);
    s := Send(runs, s, 0);
  }

  lemma SumOfOne(callers: seq<Caller>, share: Share, p: nat)
    requires |callers| == 1
    ensures Sum(callers, share, p) == Weight(callers[0], share, p)
  {
    assert callers == [] + [callers[0]];
    SumAppend([], callers[0], share, p);
  }

  lemma SaturatedCompoundOverspendsIn(runs: iset<State>) returns (s: State)
    requires Closed(runs)
    ensures s in runs && Shape(s) && s.granted == [Grants(65534, 0, 0)] && Sum(s.callers, Wired, 0) == 131070
  {
    var charges := [MAX_CHARGE, MAX_CHARGE];
    LargeTotal(charges);
    s := LargeSent(runs, charges);
    SumOfOne(s.callers, Wired, 0);
  }

  /** A compound whose charges add up past 65535 reserves too little: its frame alone overdraws the grants. */
  lemma SaturatedCompoundOverspends()
    ensures exists s :: Reachable(s) && Shape(s) && s.granted == [Grants(65534, 0, 0)]
                        && Sum(s.callers, Wired, 0) == 131070
  {
    ReachableIsClosed();
    var s := SaturatedCompoundOverspendsIn(iset s: State | Reachable(s));
  }
}
