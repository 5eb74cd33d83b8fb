/**
Credit conservation over every run: what the server granted is on hand, reserved, spent, or
strayed into another generation's pool, and nothing else.
*/
module ConnectionCredits {
  import opened ConnectionState
  import opened ConnectionSteps
  import opened ConnectionSafety

  /**
  Where a caller's credits can be, seen from pool `p`: reserved from it, spent from it, refunded
  out of it into another pool, refunded into it from another pool. Then what the caller's frame
  costs on wire `p`, and of that: what the reservation fell short by, what was refunded although
  the frame went out, what another pool paid. Last, what pool `p` paid without a frame on wire `p`.
  */
  datatype Share = InHand | Committed | Away | Home | Wired | Short | Resent | Foreign | Unwired

  predicate PaidFrom(caller: Caller, p: nat) {
    caller.hold == Held(p) || caller.hold == Spent(p)
  }

  function Weight(caller: Caller, share: Share, p: nat): nat {
    var paid := Reserve(caller.charges);
    var wired := caller.wire == OnWire(p);
    match share
    case InHand => if caller.hold == Held(p) then paid else 0
    case Committed => if caller.hold == Spent(p) then paid else 0
    case Away => if caller.hold.Refunded? && caller.hold.pool == p && caller.hold.into != p then paid else 0
    case Home => if caller.hold.Refunded? && caller.hold.pool != p && caller.hold.into == p then paid else 0
    case Wired => if wired then Total(caller.charges) else 0
    case Short => if wired then Total(caller.charges) - paid else 0
    case Resent => if wired && caller.hold.Refunded? then paid else 0
    case Foreign => if wired && !caller.hold.Refunded? && !PaidFrom(caller, p) then paid else 0
    case Unwired => if !wired && PaidFrom(caller, p) then paid else 0
  }

  function Sum(callers: seq<Caller>, share: Share, p: nat): nat {
    if callers == [] then 0
    else Sum(callers[..|callers| - 1], share, p) + Weight(callers[|callers| - 1], share, p)
  }

  lemma {:induction false} SumUpdate(callers: seq<Caller>, c: nat, x: Caller, share: Share, p: nat)
    requires c < |callers|
    ensures Sum(callers[c := x], share, p) + Weight(callers[c], share, p)
            == Sum(callers, share, p) + Weight(x, share, p)
  {
    var n := |callers| - 1;
    if c < n {
      SumUpdate(callers[..n], c, x, share, p);
      assert callers[c := x][..n] == callers[..n][c := x];
    } else {
      assert callers[c := x][..n] == callers[..n];
    }
  }

  lemma SumAppend(callers: seq<Caller>, x: Caller, share: Share, p: nat)
    ensures Sum(callers + [x], share, p) == Sum(callers, share, p) + Weight(x, share, p)
  {
    assert (callers + [x])[..|callers|] == callers;
  }

  lemma {:induction false} SumZero(callers: seq<Caller>, share: Share, p: nat)
    requires forall c :: 0 <= c < |callers| ==> Weight(callers[c], share, p) == 0
    ensures Sum(callers, share, p) == 0
  {
    if callers != [] {
      var n := |callers| - 1;
      assert callers[..n] + [callers[n]] == callers;
      forall c | 0 <= c < n ensures Weight(callers[..n][c], share, p) == 0 {
        assert callers[..n][c] == callers[c];
      }
      SumZero(callers[..n], share, p);
    }
  }

  /** What was banked into a pool: its own server's grants but for those astray, and the foreign ones. */
  function Banked(g: Grants): int {
    g.made - g.astray + g.foreign
  }

  /** The exact ledger of pool `p`. */
  ghost predicate Balanced(s: State, p: nat)
    requires Shape(s) && p <= PoolIndex(s)
  {
    Pools(s)[p].permits + Sum(s.callers, InHand, p) + Sum(s.callers, Committed, p) + Sum(s.callers, Away, p)
    == 1 + Banked(s.granted[p]) + Sum(s.callers, Home, p)
  }

  predicate Known(caller: Caller, newest: nat) {
    match caller.hold
    case Fresh => true
    case Refunded(p, into) => p <= newest && into <= newest
    case _ => caller.hold.pool <= newest
  }

  ghost predicate AllKnown(callers: seq<Caller>, newest: nat) {
    forall c :: 0 <= c < |callers| ==> Known(callers[c], newest)
  }

  ghost predicate Ledger(s: State)
    requires Shape(s)
  {
    && AllKnown(s.callers, PoolIndex(s))
    && (forall p :: 0 <= p <= PoolIndex(s) ==> Balanced(s, p))
    && (forall p :: 0 <= p < |s.pastPools| ==> s.pastPools[p].closed)
    && (s.install == 2 ==> s.core.pool.closed)
  }

  /** How one caller's change shows in the ledger of pool `p`. */
  lemma SharesMove(s: State, c: nat, x: Caller, p: nat)
    requires c < |s.callers|
    ensures forall share ::
      Sum(s.callers[c := x], share, p) + Weight(s.callers[c], share, p)
      == Sum(s.callers, share, p) + Weight(x, share, p)
  {
    forall share
      ensures Sum(s.callers[c := x], share, p) + Weight(s.callers[c], share, p)
              == Sum(s.callers, share, p) + Weight(x, share, p)
    {
      SumUpdate(s.callers, c, x, share, p);
    }
  }

  lemma BalancedSpend(s: State, c: nat, from: nat, p: nat)
    requires Shape(s) && c < |s.callers| && (s.callers[c].hold.Fresh? || s.callers[c].hold.Parked?)
    requires from <= PoolIndex(s) && Reserve(s.callers[c].charges) <= Pools(s)[from].permits
    requires p <= PoolIndex(s) && Balanced(s, p)
    ensures Balanced(WithCaller(SpendFrom(s, from, Reserve(s.callers[c].charges)), c,
                                s.callers[c].(hold := Held(from))), p)
  {
    SharesMove(s, c, s.callers[c].(hold := Held(from)), p);
  }

  lemma BalancedRefund(s: State, c: nat, p: nat)
    requires Shape(s) && c < |s.callers| && s.callers[c].hold.Held? && s.callers[c].hold.pool <= PoolIndex(s)
    requires p <= PoolIndex(s) && Balanced(s, p)
    ensures Balanced(WithCaller(s.(core := Grant(s.core, Reserve(s.callers[c].charges))), c,
                                s.callers[c].(hold := Refunded(s.callers[c].hold.pool, PoolIndex(s)))), p)
  {
    SharesMove(s, c, s.callers[c].(hold := Refunded(s.callers[c].hold.pool, PoolIndex(s))), p);
  }

  lemma BalancedHere(s: State, c: nat, x: Caller, p: nat)
    requires Shape(s) && c < |s.callers| && x.chans == s.callers[c].chans && x.charges == s.callers[c].charges
    requires x.hold == s.callers[c].hold || (s.callers[c].hold.Fresh? && x.hold == Parked(PoolIndex(s)))
             || (s.callers[c].hold.Held? && x.hold == Spent(s.callers[c].hold.pool))
    requires p <= PoolIndex(s) && Balanced(s, p)
    ensures Balanced(WithCaller(s, c, x), p)
  {
    SharesMove(s, c, x, p);
  }

  /** A caller's own step moves its credits between shares. */
  lemma BalancedCaller(s: State, e: Event, p: nat)
    requires Shape(s) && Enabled(s, e) && OfCaller(e) && Ledger(s) && p <= PoolIndex(s)
    ensures Balanced(ApplyCaller(s, e), p)
  {
    var c := e.c;
    assert Balanced(s, p) && Known(s.callers[c], PoolIndex(s));
    if e.Acquire? {
      BalancedSpend(s, c, PoolIndex(s), p);
    } else if e.Wake? {
      BalancedSpend(s, c, s.callers[c].hold.pool, p);
    } else if e.Refund? {
      BalancedRefund(s, c, p);
    } else {
      BalancedHere(s, c, ApplyCaller(s, e).callers[c], p);
    }
  }

  lemma BalancedStart(s: State, charges: seq<nat>, p: nat)
    requires Shape(s) && Enabled(s, Start(charges)) && p <= PoolIndex(s) && Balanced(s, p)
    ensures Balanced(Apply(s, Start(charges)), p)
  {
    var x := Caller(charges, Fresh, [], 0, Unsent, true);
    assert Apply(s, Start(charges)) == s.(callers := s.callers + [x]);
    BalancedAppend(s, x, p);
  }

  lemma BalancedAppend(s: State, x: Caller, p: nat)
    requires Shape(s) && p <= PoolIndex(s) && Balanced(s, p) && x.hold.Fresh? && x.chans == []
    ensures Balanced(s.(callers := s.callers + [x]), p)
  {
    SumAppend(s.callers, x, InHand, p);
    SumAppend(s.callers, x, Committed, p);
    SumAppend(s.callers, x, Away, p);
    SumAppend(s.callers, x, Home, p);
  }

  lemma BalancedResetPool(s: State, p: nat)
    requires Shape(s) && Enabled(s, ResetPool) && Ledger(s) && p <= PoolIndex(s) + 1
    ensures Balanced(ApplyInstall(s, ResetPool), p)
  {
    if p <= PoolIndex(s) {
      assert Balanced(s, p);
    } else {
      forall share, c | share in {InHand, Committed, Away, Home} && 0 <= c < |s.callers|
        ensures Weight(s.callers[c], share, p) == 0
      {
        assert Known(s.callers[c], PoolIndex(s));
      }
      SumZero(s.callers, InHand, p);
      SumZero(s.callers, Committed, p);
      SumZero(s.callers, Away, p);
      SumZero(s.callers, Home, p);
    }
  }

  lemma BalancedQuiet(s: State, e: Event, p: nat)
    requires Shape(s) && Enabled(s, e) && p <= PoolIndex(s) && Balanced(s, p)
    requires e.Number? || e.Register?
    ensures Balanced(Apply(s, e), p)
  {
    SharesMove(s, e.c, Apply(s, e).callers[e.c], p);
  }

  lemma BalancedStep(s: State, e: Event, p: nat)
    requires Shape(s) && Enabled(s, e) && Ledger(s) && p <= PoolIndex(Apply(s, e))
    ensures Balanced(Apply(s, e), p)
  {
    if e.ResetPool? {
      BalancedResetPool(s, p);
    } else if OfCaller(e) {
      PoolsKept(s, e);
      BalancedCaller(s, e, p);
    } else {
      PoolsKept(s, e);
      BalancedElse(s, e, p);
    }
  }

  lemma PoolsKept(s: State, e: Event)
    requires Shape(s) && Enabled(s, e) && !e.ResetPool?
    ensures PoolIndex(Apply(s, e)) == PoolIndex(s)
  {
  }

  lemma BalancedElse(s: State, e: Event, p: nat)
    requires Shape(s) && Enabled(s, e) && !OfCaller(e) && !e.ResetPool? && p <= PoolIndex(s) && Balanced(s, p)
    ensures p <= PoolIndex(Apply(s, e)) && Balanced(Apply(s, e), p)
  {
    PermitsStep(s, e, p);
    if e.Start? {
      BalancedStart(s, e.charges, p);
    } else if e.Number? || e.Register? {
      BalancedQuiet(s, e, p);
    } else {
      CallersShape(s, e);
      BalancedAlike(s, Apply(s, e), p);
    }
  }

  lemma BalancedAlike(s: State, t: State, p: nat)
    requires Shape(s) && Shape(t) && p <= PoolIndex(s) == PoolIndex(t) && Balanced(s, p) && t.callers == s.callers
    requires Pools(t)[p].permits - Banked(t.granted[p]) == Pools(s)[p].permits - Banked(s.granted[p])
    ensures Balanced(t, p)
  {
  }

  /** Outside the callers' own steps only a grant and a reset touch the permits. */
  lemma PermitsStep(s: State, e: Event, p: nat)
    requires Shape(s) && Enabled(s, e) && !OfCaller(e) && !e.ResetPool? && p <= PoolIndex(s)
    ensures var t := Apply(s, e);
            && PoolIndex(t) == PoolIndex(s)
            && Pools(t)[p].permits - Banked(t.granted[p]) == Pools(s)[p].permits - Banked(s.granted[p])
  {
    GrantsStep(s, e);
    if OfTable(e) { TableClosesNothing(s, e); }
  }

  lemma KnownOwn(s: State, e: Event)
    requires Shape(s) && Enabled(s, e) && OfCaller(e) && Known(s.callers[e.c], PoolIndex(s))
    ensures var t := ApplyCaller(s, e);
            PoolIndex(t) == PoolIndex(s) && t.callers == s.callers[e.c := t.callers[e.c]]
            && Known(t.callers[e.c], PoolIndex(s))
  {
  }

  lemma KnownUpdate(callers: seq<Caller>, c: nat, x: Caller, newest: nat)
    requires AllKnown(callers, newest) && c < |callers| && Known(x, newest)
    ensures AllKnown(callers[c := x], newest)
  {
  }

  lemma KnownLater(callers: seq<Caller>, newest: nat, more: nat)
    requires AllKnown(callers, newest) && newest <= more
    ensures AllKnown(callers, more)
  {
    forall c | 0 <= c < |callers| ensures Known(callers[c], more) {
      assert Known(callers[c], newest);
    }
  }

  lemma KnownStep(s: State, e: Event)
    requires Shape(s) && Enabled(s, e) && AllKnown(s.callers, PoolIndex(s))
    ensures var t := Apply(s, e); AllKnown(t.callers, PoolIndex(t))
  {
    if OfCaller(e) {
      assert Known(s.callers[e.c], PoolIndex(s));
      KnownOwn(s, e);
      KnownUpdate(s.callers, e.c, ApplyCaller(s, e).callers[e.c], PoolIndex(s));
    } else {
      CallersShape(s, e);
      KnownElse(s, e, Apply(s, e));
    }
  }

  lemma KnownElse(s: State, e: Event, t: State)
    requires AllKnown(s.callers, PoolIndex(s)) && PoolIndex(s) <= PoolIndex(t)
    requires e.Start? ==> t.callers == s.callers + [Caller(e.charges, Fresh, [], 0, Unsent, true)]
    requires e.Number? || e.Register? ==>
               && e.c < |s.callers| == |t.callers| && t.callers == s.callers[e.c := t.callers[e.c]]
               && t.callers[e.c].hold == s.callers[e.c].hold
    requires !e.Start? && !e.Number? && !e.Register? ==> t.callers == s.callers
    ensures AllKnown(t.callers, PoolIndex(t))
  {
    KnownLater(s.callers, PoolIndex(s), PoolIndex(t));
    if e.Number? || e.Register? {
      KnownUpdate(s.callers, e.c, t.callers[e.c], PoolIndex(t));
    }
  }

  lemma ClosedStep(s: State, e: Event)
    requires Shape(s) && Enabled(s, e) && Ledger(s)
    ensures var s' := Apply(s, e);
            && (forall p :: 0 <= p < |s'.pastPools| ==> s'.pastPools[p].closed)
            && (s'.install == 2 ==> s'.core.pool.closed)
  {
    if OfCaller(e) {
      OwnStepsCloseNothing(s, e);
    } else if OfTable(e) {
      TableClosesNothing(s, e);
    }
  }

  lemma LedgerStep(s: State, e: Event)
    requires Shape(s) && Enabled(s, e) && Ledger(s)
    ensures Ledger(Apply(s, e))
  {
    KnownStep(s, e);
    ClosedStep(s, e);
    forall p | 0 <= p <= PoolIndex(Apply(s, e)) ensures Balanced(Apply(s, e), p) {
      BalancedStep(s, e, p);
    }
  }

  lemma {:induction false} RunKeepsLedger(s: State, events: seq<Event>)
    requires Shape(s) && Ledger(s) && Legal(s, events)
    ensures Shape(After(s, events)) && Ledger(After(s, events))
    decreases |events|
  {
    if events != [] {
      LedgerStep(s, events[0]);
      RunKeepsLedger(Apply(s, events[0]), events[1..]);
    }
  }

  lemma InitialLedger()
    ensures Shape(INITIAL) && Ledger(INITIAL)
  {
    assert Balanced(INITIAL, 0);
  }

  /**
  Credit conservation, in every interleaving and every generation: what is on hand, reserved and
  spent, and what strayed out in refunds and grants, adds up to the first credit, the grants of the
  generation's own server, and what strayed in.
  */
  lemma CreditsAreConserved(s: State, p: nat)
    requires Reachable(s) && Shape(s) && p <= PoolIndex(s)
    ensures Balanced(s, p)
    ensures Pools(s)[p].permits + Sum(s.callers, InHand, p) + Sum(s.callers, Committed, p)
            + Sum(s.callers, Away, p) + s.granted[p].astray
            == 1 + s.granted[p].made + Sum(s.callers, Home, p) + s.granted[p].foreign
  {
    ReachableLedger(s);
    assert Balanced(s, p);
  }

  lemma ReachableLedger(s: State)
    requires Reachable(s) && Shape(s)
    ensures Ledger(s)
  {
    var events :| Legal(INITIAL, events) && After(INITIAL, events) == s;
    InitialLedger();
    RunKeepsLedger(INITIAL, events);
  }

  /** A budget that was thrown away can never be drawn on again. */
  lemma OldBudgetsAreClosed(s: State, c: nat)
    requires Reachable(s) && Shape(s) && Enabled(s, Wake(c))
    ensures s.callers[c].hold.pool == PoolIndex(s)
  {
    ReachableLedger(s);
  }

  // ---- The ledger without strays, and what it buys on the wire.

  /** On hand, reserved and committed make up the first credit and the grants. */
  ghost predicate Plain(s: State, p: nat)
    requires Shape(s) && p <= PoolIndex(s)
  {
    Pools(s)[p].permits + Sum(s.callers, InHand, p) + Sum(s.callers, Committed, p) == 1 + Banked(s.granted[p])
  }

  lemma TotalIsPositive(charges: seq<nat>)
    requires charges != [] && forall i :: 0 <= i < |charges| ==> charges[i] >= 1
    ensures Reserve(charges) >= 1
  {
  }

  /**
  A refund keeps the plain ledger of the pool it lands in exactly when the reservation was taken
  from that very pool; a reservation that straddles a revival inflates the new budget.
  */
  lemma RefundKeepsThePlainLedger(s: State, c: nat)
    requires Inv(s) && Enabled(s, Refund(c)) && Plain(s, PoolIndex(s))
    ensures Plain(Apply(s, Refund(c)), PoolIndex(s)) <==> s.callers[c].hold.pool == PoolIndex(s)
  {
    var p := PoolIndex(s);
    SharesMove(s, c, Apply(s, Refund(c)).callers[c], p);
    TotalIsPositive(s.callers[c].charges);
  }

  /** What nobody must do for the wire to stay within the grants. */
  predicate Orderly(s: State, e: Event)
    requires Shape(s) && Enabled(s, e)
  {
    match e
    case Start(charges) => Total(charges) <= MAX_CHARGE
    case Enqueue(c) => s.callers[c].hold.pool == s.queue
    case Abandon(c) => !s.callers[c].wire.Queued? && (s.callers[c].wire.OnWire? ==> s.callers[c].hold.Spent?)
    case Refund(c) => s.callers[c].hold.pool == PoolIndex(s)
    case Bank(f) => f.socket == PoolIndex(s) || f.credits == 0
    case _ => true
  }

  ghost predicate OrderlyRun(s: State, events: seq<Event>)
    requires Shape(s)
    decreases |events|
  {
    events == [] || (Enabled(s, events[0]) && Orderly(s, events[0]) && OrderlyRun(Apply(s, events[0]), events[1..]))
  }

  /** A frame in a queue or on the wire is paid for from that generation's pool. */
  predicate Funded(caller: Caller) {
    && Total(caller.charges) <= MAX_CHARGE
    && (caller.wire.Queued? || caller.wire.OnWire? ==>
          (caller.hold == Held(caller.wire.queue) && caller.live) || caller.hold == Spent(caller.wire.queue))
    && (caller.hold.Refunded? ==> caller.hold.pool == caller.hold.into)
  }

  ghost predicate AllFunded(callers: seq<Caller>) {
    forall c :: 0 <= c < |callers| ==> Funded(callers[c])
  }

  /** Every grant is in the pool of the server that made it. */
  ghost predicate Unmixed(granted: seq<Grants>) {
    forall q :: 0 <= q < |granted| ==> granted[q].astray == 0 && granted[q].foreign == 0
  }

  /** Every frame is paid for by its own generation, out of its own server's grants. */
  ghost predicate Solvent(s: State) {
    AllFunded(s.callers) && Unmixed(s.granted)
  }

  lemma BookUnmixed(granted: seq<Grants>, from: nat, into: nat, credits: nat)
    requires Unmixed(granted) && from < |granted| && into < |granted|
    ensures Unmixed(Book(granted, from, into, credits)) <==> from == into || credits == 0
  {
    var r := Book(granted, from, into, credits);
    assert from != into ==> r[into].foreign == credits;
    if from == into || credits == 0 {
      forall q | 0 <= q < |r| ensures r[q].astray == 0 && r[q].foreign == 0 {
        assert granted[q].astray == 0 && granted[q].foreign == 0;
      }
    }
  }

  /** Only banking a frame's credits touches a generation's grants. */
  lemma GrantsStep(s: State, e: Event)
    requires Shape(s) && Enabled(s, e)
    ensures var t := Apply(s, e);
            if e.Bank? then t.granted == Book(s.granted, e.f.socket, PoolIndex(s), e.f.credits)
            else if e.ResetPool? then t.granted == s.granted + [NO_GRANTS]
            else t.granted == s.granted
  {
    if OfCaller(e) {
      GrantsOwn(s, e);
    } else if OfTable(e) {
      TableClosesNothing(s, e);
    }
  }

  lemma GrantsOwn(s: State, e: Event)
    requires Shape(s) && Enabled(s, e) && OfCaller(e)
    ensures ApplyCaller(s, e).granted == s.granted
  {
  }

  lemma UnmixedStep(s: State, e: Event)
    requires Shape(s) && Enabled(s, e) && Unmixed(s.granted)
    ensures Unmixed(Apply(s, e).granted) <==> (e.Bank? ==> Orderly(s, e))
  {
    GrantsStep(s, e);
    if e.Bank? {
      BookUnmixed(s.granted, e.f.socket, PoolIndex(s), e.f.credits);
    }
  }

  lemma FundedUpdate(callers: seq<Caller>, c: nat, x: Caller)
    requires AllFunded(callers) && c < |callers|
    ensures AllFunded(callers[c := x]) <==> Funded(x)
  {
    assert callers[c := x][c] == x;
  }

  /** A caller's own step keeps its frame funded exactly when it is orderly. */
  lemma FundedOwn(s: State, e: Event)
    requires Shape(s) && Enabled(s, e) && OfCaller(e) && Funded(s.callers[e.c]) && Paced(s.callers[e.c])
    ensures var t := ApplyCaller(s, e);
            t.callers == s.callers[e.c := t.callers[e.c]] && (Funded(t.callers[e.c]) <==> Orderly(s, e))
  {
  }

  lemma FundedStart(callers: seq<Caller>, x: Caller)
    requires AllFunded(callers)
    ensures AllFunded(callers + [x]) <==> Funded(x)
  {
    assert (callers + [x])[|callers|] == x;
  }

  /**
  The exact condition: of all steps of all parties, those keep every frame paid for by its own
  generation, and every grant in the pool of the server that made it, that saturate no reservation,
  abandon no frame before its ack, and neither send, refund nor bank across a revival.
  */
  lemma SolventExactlyWhenOrderly(s: State, e: Event)
    requires Shape(s) && Enabled(s, e) && AllPaced(s.callers) && Solvent(s)
    ensures Solvent(Apply(s, e)) <==> Orderly(s, e)
  {
    UnmixedStep(s, e);
    FundedStep(s, e);
  }

  lemma FundedStep(s: State, e: Event)
    requires Shape(s) && Enabled(s, e) && AllPaced(s.callers) && AllFunded(s.callers)
    ensures AllFunded(Apply(s, e).callers) <==> e.Bank? || Orderly(s, e)
  {
    if OfCaller(e) {
      assert Funded(s.callers[e.c]) && Paced(s.callers[e.c]);
      FundedOwn(s, e);
      FundedUpdate(s.callers, e.c, ApplyCaller(s, e).callers[e.c]);
    } else {
      FundedElse(s, e);
    }
  }

  lemma FundedElse(s: State, e: Event)
    requires Shape(s) && Enabled(s, e) && !OfCaller(e) && AllPaced(s.callers) && AllFunded(s.callers)
    ensures AllFunded(Apply(s, e).callers) <==> e.Bank? || Orderly(s, e)
  {
    if e.Start? {
      FundedStart(s.callers, Caller(e.charges, Fresh, [], 0, Unsent, true));
    } else if e.Number? || e.Register? {
      assert Funded(s.callers[e.c]);
      FundedBooking(s, e);
      FundedUpdate(s.callers, e.c, ApplyTable(s, e).callers[e.c]);
    } else {
      CallersShape(s, e);
    }
  }

  lemma FundedBooking(s: State, e: Event)
    requires Shape(s) && Enabled(s, e) && (e.Number? || e.Register?) && Funded(s.callers[e.c]) && Paced(s.callers[e.c])
    ensures var t := ApplyTable(s, e); t.callers == s.callers[e.c := t.callers[e.c]] && Funded(t.callers[e.c])
  {
  }

  lemma {:induction false} OrderlyRunsAreSolvent(s: State, events: seq<Event>)
    requires Inv(s) && Ledger(s) && Solvent(s) && OrderlyRun(s, events)
    ensures Legal(s, events) && Shape(After(s, events))
    ensures Ledger(After(s, events)) && Solvent(After(s, events))
    decreases |events|
  {
    if events != [] {
      InvStep(s, events[0]);
      LedgerStep(s, events[0]);
      SolventExactlyWhenOrderly(s, events[0]);
      OrderlyRunsAreSolvent(Apply(s, events[0]), events[1..]);
    }
  }

  lemma {:induction false} WiredIsPaidFor(callers: seq<Caller>, q: nat)
    requires forall c :: 0 <= c < |callers| ==> Funded(callers[c])
    ensures Sum(callers, Wired, q) <= Sum(callers, InHand, q) + Sum(callers, Committed, q)
    ensures Sum(callers, Home, q) == 0
  {
    if callers != [] {
      var n := |callers| - 1;
      assert forall c :: 0 <= c < n ==> callers[..n][c] == callers[c];
      assert Funded(callers[n]);
      WiredIsPaidFor(callers[..n], q);
    }
  }

  /** Some orderly run leads from `start` to `s`. */
  ghost predicate OrderlyLeads(start: State, s: State)
    requires Shape(start)
  {
    exists events :: OrderlyRun(start, events) && Legal(start, events) && After(start, events) == s
  }

  lemma OrderlyLeadsSolvent(start: State, s: State)
    requires Inv(start) && Ledger(start) && Solvent(start) && OrderlyLeads(start, s)
    ensures Shape(s) && Ledger(s) && Solvent(s)
  {
    var events :| OrderlyRun(start, events) && Legal(start, events) && After(start, events) == s;
    OrderlyRunsAreSolvent(start, events);
  }

  /**
  In a run where no compound saturates, no caller goes away between handing its frame over and
  hearing back, and no reservation and no grant crosses a revival, the charges on each generation's
  wire never exceed its first credit and what its own server granted, with what is still on hand to
  spare.
  */
  lemma WireStaysWithinTheGrants(s: State, q: nat)
    requires OrderlyLeads(INITIAL, s) && Shape(s) && q <= PoolIndex(s)
    ensures Sum(s.callers, Wired, q) + Pools(s)[q].permits <= 1 + s.granted[q].made
  {
    OrderlyReachableSolvent(s);
    SolventWireIsWithin(s, q);
  }

  lemma InitialSolvent()
    ensures Inv(INITIAL) && Ledger(INITIAL) && Solvent(INITIAL)
  {
    InitialInv();
    InitialLedger();
  }

  lemma OrderlyReachableSolvent(s: State)
    requires OrderlyLeads(INITIAL, s) && Shape(s)
    ensures Ledger(s) && Solvent(s)
  {
    InitialSolvent();
    OrderlyLeadsSolvent(INITIAL, s);
  }

  lemma SolventWireIsWithin(s: State, q: nat)
    requires Shape(s) && Ledger(s) && Solvent(s) && q <= PoolIndex(s)
    ensures Sum(s.callers, Wired, q) + Pools(s)[q].permits <= 1 + s.granted[q].made
  {
    WiredIsPaidFor(s.callers, q);
    assert Balanced(s, q);
  }

  // ---- Where any overspend comes from.

  /** One frame, item by item. */
  lemma FrameItemised(caller: Caller, q: nat)
    requires Paced(caller)
    ensures Weight(caller, Wired, q) + Weight(caller, Unwired, q)
            == Weight(caller, InHand, q) + Weight(caller, Committed, q)
               + Weight(caller, Short, q) + Weight(caller, Resent, q) + Weight(caller, Foreign, q)
  {
  }

  lemma {:induction false} WireItemised(callers: seq<Caller>, q: nat)
    requires AllPaced(callers)
    ensures Sum(callers, Wired, q) + Sum(callers, Unwired, q)
            == Sum(callers, InHand, q) + Sum(callers, Committed, q)
               + Sum(callers, Short, q) + Sum(callers, Resent, q) + Sum(callers, Foreign, q)
  {
    if callers != [] {
      var n := |callers| - 1;
      assert forall c :: 0 <= c < n ==> callers[..n][c] == callers[c];
      WireItemised(callers[..n], q);
      FrameItemised(callers[n], q);
    }
  }

  /**
  In every reachable state, what is on wire `q` and still on hand exceeds the first credit and the
  grants of that wire's own server by exactly: what saturated reservations fell short by, what was
  refunded although sent, what other pools paid or gave back to this one, and what other servers
  granted into it; less what this pool paid for nothing or gave away, and what its server granted into
  others. So the wire is within the grants if and only if the former do not outweigh the latter.
  */
  lemma WhatTheWireOwes(s: State, q: nat)
    requires Reachable(s) && Shape(s) && q <= PoolIndex(s)
    ensures var excess := Sum(s.callers, Short, q) + Sum(s.callers, Resent, q)
                          + Sum(s.callers, Foreign, q) + Sum(s.callers, Home, q) + s.granted[q].foreign;
            var slack := Sum(s.callers, Unwired, q) + Sum(s.callers, Away, q) + s.granted[q].astray;
            && Sum(s.callers, Wired, q) + Pools(s)[q].permits + slack == 1 + s.granted[q].made + excess
            && (Sum(s.callers, Wired, q) + Pools(s)[q].permits <= 1 + s.granted[q].made <==> excess <= slack)
  {
    ReachableInv(s);
    CreditsAreConserved(s, q);
    WireItemised(s.callers, q);
  }

  // ---- When a live connection has an open budget.

  /** A connection that is up, or about to come up with the new budget, has it open. */
  predicate BudgetOpen(s: State) {
    !s.core.disconnected || s.install >= 3 ==> !s.core.pool.closed
  }

  /** A teardown's close that comes after a revival put the new budget in place. */
  predicate LateClose(s: State, e: Event) {
    e.ClosePool? && (!s.core.disconnected || s.install >= 3)
  }

  /** Nothing but a late close can shut a live connection's budget, and a late close does. */
  lemma OnlyALateCloseShutsALiveBudget(s: State, e: Event)
    requires Shape(s) && Enabled(s, e) && NoGhosts(s) && BudgetOpen(s)
    ensures BudgetOpen(Apply(s, e)) <==> !LateClose(s, e)
  {
    if OfCaller(e) {
      OwnStepsCloseNothing(s, e);
    } else if OfTable(e) {
      TableClosesNothing(s, e);
    }
  }

  lemma OwnStepsCloseNothing(s: State, e: Event)
    requires Shape(s) && Enabled(s, e) && OfCaller(e)
    ensures var t := ApplyCaller(s, e);
            && t.core.disconnected == s.core.disconnected && t.install == s.install
            && t.core.pool.closed == s.core.pool.closed && |t.pastPools| == |s.pastPools|
            && forall p :: 0 <= p < |s.pastPools| ==> t.pastPools[p].closed == s.pastPools[p].closed
  {
  }

  lemma TableClosesNothing(s: State, e: Event)
    requires Shape(s) && Enabled(s, e) && OfTable(e)
    ensures var t := ApplyTable(s, e);
            && t.core.pool == s.core.pool && t.pastPools == s.pastPools && t.granted == s.granted
            && (s.core.disconnected ==> t.core.disconnected)
            && (t.install == s.install || (t.install == 1 && t.core.disconnected))
            && (!t.core.disconnected ==> !s.core.disconnected)
  {
  }

  ghost predicate PromptRun(s: State, events: seq<Event>)
    requires Shape(s)
    decreases |events|
  {
    events == [] || (Enabled(s, events[0]) && !LateClose(s, events[0]) && PromptRun(Apply(s, events[0]), events[1..]))
  }

  /** When every teardown closes the budget it tore down, a live connection serves everybody whose credits are there. */
  lemma {:induction false} PromptRunsKeepTheBudgetOpen(s: State, events: seq<Event>, c: nat)
    requires Inv(s) && BudgetOpen(s) && PromptRun(s, events)
    ensures Legal(s, events) && Shape(After(s, events)) && BudgetOpen(After(s, events))
    ensures var t := After(s, events);
            (!t.core.disconnected && Active(t, c) && t.callers[c].hold.Fresh?
             && Reserve(t.callers[c].charges) <= t.core.pool.permits) ==> Enabled(t, Acquire(c))
    decreases |events|
  {
    if events != [] {
      InvStep(s, events[0]);
      OnlyALateCloseShutsALiveBudget(s, events[0]);
      PromptRunsKeepTheBudgetOpen(Apply(s, events[0]), events[1..], c);
    }
  }
}
