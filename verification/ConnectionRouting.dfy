/**
Theorems about every run of the protocol: exactly-once routing, no ghost waiters, and what
the restart of the id counter at a revival does and does not break.
*/
module ConnectionRouting {
  import opened Bytes
  import opened ConnectionState
  import opened ConnectionSteps
  import opened ConnectionSafety

  /** Two ranges of one generation never overlap. */
  lemma RangesApart(slots: seq<Slot>, tops: seq<nat>, a: nat, b: nat)
    requires Tiled(slots, tops) && a < |slots| && b < |slots|
    ensures a != b && slots[a].epoch == slots[b].epoch ==>
      slots[a].id + slots[a].charge <= slots[b].id || slots[b].id + slots[b].charge <= slots[a].id
    ensures a != b && slots[a].epoch == slots[b].epoch ==> slots[a].id != slots[b].id
  {
  }

  /** Through any number of teardowns and revivals, a dead connection has no waiter. */
  lemma NoGhostWaiter(s: State)
    requires Reachable(s)
    ensures s.core.disconnected ==> s.core.waiters == map[]
  {
    ReachableInv(s);
  }

  /** In every generation each id below the counter belongs to exactly one allocated range. */
  lemma IdsTileEveryGeneration(s: State, epoch: nat, i: nat)
    requires Reachable(s) && epoch <= Epoch(s) && i < Tops(s)[epoch]
    ensures exists a :: 0 <= a < |s.slots| && Covers(s.slots[a], epoch, i)
                        && forall b :: 0 <= b < |s.slots| && Covers(s.slots[b], epoch, i) ==> b == a
  {
    ReachableInv(s);
    assert Found(s.slots, epoch, i);
    var a :| 0 <= a < |s.slots| && Covers(s.slots[a], epoch, i);
    forall b | 0 <= b < |s.slots| && Covers(s.slots[b], epoch, i) ensures b == a {
      RangesApart(s.slots, Tops(s), a, b);
    }
  }

  /** How a channel may develop: forward only, and never rewriting what was delivered. */
  predicate Later(x: Slot, y: Slot) {
    && SameRange(x, y)
    && (x.closed ==> y.closed)
    && (!x.phase.Allocated? ==> !y.phase.Allocated?)
    && (x.phase.Taken? ==> y.phase == x.phase || y.phase == Gone(if x.phase.drained then Drained else Routed))
    && (x.phase.Taken? && y.inbox.Some? ==> y.inbox.value == x.phase.reply)
    && (x.phase.Gone? ==> y.phase == x.phase && y.inbox == x.inbox)
    && (x.inbox.Some? ==> y.inbox == x.inbox)
  }

  lemma LaterUnhook(waiters: map<nat, nat>, slots: seq<Slot>, a: nat, own: Exit)
    requires Hooked(waiters, slots) && Mail(slots) && a < |slots|
    ensures forall b :: 0 <= b < |slots| ==> Later(slots[b], Unhook(slots, waiters, a, own)[b])
  {
  }

  lemma LaterRegister(s: State, c: nat)
    requires Shape(s) && Enabled(s, Register(c)) && Mail(s.slots)
    requires Hooked(s.core.waiters, s.slots) && Booked(s.callers, s.slots)
    ensures forall b :: 0 <= b < |s.slots| ==> Later(s.slots[b], ApplyRegister(s, c).slots[b])
  {
    assert Kept(s.callers[c], c, s.callers[c].enrolled, s.slots);
  }

  lemma LaterRoute(s: State, f: Frame)
    requires Shape(s) && Enabled(s, RouteFrame(f)) && Mail(s.slots) && Hooked(s.core.waiters, s.slots)
    ensures forall b :: 0 <= b < |s.slots| ==> Later(s.slots[b], ApplyRoute(s, f).slots[b])
  {
  }

  lemma LaterSever(s: State, e: Failure)
    requires Shape(s) && Mail(s.slots)
    ensures forall b :: 0 <= b < |s.slots| ==> Later(s.slots[b], ApplySever(s, e).slots[b])
  {
  }

  lemma LaterDeliver(s: State, a: nat)
    requires Shape(s) && Enabled(s, Deliver(a)) && Mail(s.slots)
    ensures forall b :: 0 <= b < |s.slots| ==> Later(s.slots[b], ApplyDeliver(s, a).slots[b])
  {
    assert Posted(s.slots[a]);
  }

  lemma LaterDropGuard(s: State, a: nat)
    requires Shape(s) && a < |s.slots| && Mail(s.slots) && Hooked(s.core.waiters, s.slots)
    ensures forall b :: 0 <= b < |s.slots| ==> Later(s.slots[b], ApplyDropGuard(s, a).slots[b])
  {
    LaterUnhook(s.core.waiters, s.slots, a, GuardDropped);
  }

  lemma LaterSelf(slots: seq<Slot>)
    requires Mail(slots)
    ensures forall b :: 0 <= b < |slots| ==> Later(slots[b], slots[b])
  {
  }

  lemma LaterTable(s: State, e: Event)
    requires Shape(s) && Enabled(s, e) && OfTable(e) && Mail(s.slots)
    requires Hooked(s.core.waiters, s.slots) && Booked(s.callers, s.slots)
    ensures var t := ApplyTable(s, e);
            |s.slots| <= |t.slots| && forall b :: 0 <= b < |s.slots| ==> Later(s.slots[b], t.slots[b])
  {
    LaterSelf(s.slots);
    if e.Register? {
      LaterRegister(s, e.c);
    } else if e.DropGuard? {
      LaterDropGuard(s, e.a);
    } else if e.RemoveWaiter? {
      LaterUnhook(s.core.waiters, s.slots, e.a, Removed);
    } else if e.RouteFrame? {
      LaterRoute(s, e.f);
    } else if e.Deliver? {
      LaterDeliver(s, e.a);
    } else if e.Drain? {
      LaterSever(s, e.e);
    } else if e.InstallDrain? {
      LaterSever(s, Disconnected);
    }
  }

  lemma LaterStep(s: State, e: Event)
    requires Shape(s) && Enabled(s, e) && Mail(s.slots)
    requires Hooked(s.core.waiters, s.slots) && Booked(s.callers, s.slots)
    ensures var t := Apply(s, e);
            |s.slots| <= |t.slots| && forall b :: 0 <= b < |s.slots| ==> Later(s.slots[b], t.slots[b])
  {
    if OfTable(e) {
      LaterTable(s, e);
    } else {
      LaterSelf(s.slots);
      TableOnly(s, e);
    }
  }

  /**
  Over any run, a channel is written at most once, what it was owed is what it gets, and a
  waiter that has left the map stays gone the way it left.
  */
  lemma {:induction false} WrittenAtMostOnce(s: State, events: seq<Event>)
    requires Inv(s) && Legal(s, events)
    ensures var s' := After(s, events);
            && |s.slots| <= |s'.slots|
            && forall b :: 0 <= b < |s.slots| ==> Later(s.slots[b], s'.slots[b])
    decreases |events|
  {
    if events != [] {
      var m := Apply(s, events[0]);
      InvStep(s, events[0]);
      LaterStep(s, events[0]);
      WrittenAtMostOnce(m, events[1..]);
      var s' := After(m, events[1..]);
      forall b | 0 <= b < |s.slots| ensures Later(s.slots[b], s'.slots[b]) {
        assert Later(s.slots[b], m.slots[b]) && Later(m.slots[b], s'.slots[b]);
      }
    }
  }

  /** An answer only ever reaches the channel whose id it bears, and only if it is final and verified. */
  lemma AnswersBearTheirOwnId(s: State, a: nat)
    requires Reachable(s) && a < |s.slots|
    requires s.slots[a].inbox.Some? && s.slots[a].inbox.value.Answer?
    ensures Genuine(s.slots[a].inbox.value.frame, s.slots[a].id)
  {
    ReachableInv(s);
    assert Posted(s.slots[a]);
  }

  // ---- A refused registration.

  /** A call that is over, with nothing handed over and its channels from `n` on never registered. */
  ghost predicate Mute(s: State, c: nat, n: nat) {
    && c < |s.callers| && !s.callers[c].live && s.callers[c].wire.Unsent?
    && forall k :: n <= k < |s.callers[c].chans| ==>
         s.callers[c].chans[k] < |s.slots| && s.slots[s.callers[c].chans[k]].phase.Allocated?
  }

  /** The call's own record: over stays over, and nothing is handed over afterwards. */
  lemma OverStaysOver(s: State, e: Event, c: nat)
    requires Shape(s) && Enabled(s, e) && c < |s.callers| && !s.callers[c].live && s.callers[c].wire.Unsent?
    ensures var t := Apply(s, e);
            && c < |t.callers| && !t.callers[c].live && t.callers[c].wire.Unsent?
            && t.callers[c].chans == s.callers[c].chans
  {
    if OfCaller(e) {
      OverStaysOverOwn(s, e, c);
    } else {
      CallersShape(s, e);
    }
  }

  lemma OverStaysOverOwn(s: State, e: Event, c: nat)
    requires Shape(s) && Enabled(s, e) && OfCaller(e)
    requires c < |s.callers| && !s.callers[c].live && s.callers[c].wire.Unsent?
    ensures var t := ApplyCaller(s, e);
            && c < |t.callers| && !t.callers[c].live && t.callers[c].wire.Unsent?
            && t.callers[c].chans == s.callers[c].chans
  {
  }

  lemma MuteStep(s: State, e: Event, c: nat, n: nat)
    requires Inv(s) && Enabled(s, e) && Mute(s, c, n)
    ensures Mute(Apply(s, e), c, n)
  {
    OverStaysOver(s, e, c);
    var t := Apply(s, e);
    forall k | n <= k < |t.callers[c].chans|
      ensures t.callers[c].chans[k] < |t.slots| && t.slots[t.callers[c].chans[k]].phase.Allocated?
    {
      UnregisteredStays(s, e, c, k);
    }
  }

  /** Only its own caller registers a channel. */
  lemma UnregisteredStays(s: State, e: Event, c: nat, k: nat)
    requires Inv(s) && Enabled(s, e) && c < |s.callers| && !s.callers[c].live && k < |s.callers[c].chans|
    requires s.slots[s.callers[c].chans[k]].phase.Allocated?
    ensures var t := Apply(s, e);
            s.callers[c].chans[k] < |t.slots| && t.slots[s.callers[c].chans[k]].phase.Allocated?
  {
    assert Kept(s.callers[c], c, k, s.slots);
    if e.Number? {
      assert Apply(s, e) == ApplyNumber(s, e.c);
    } else if e.Register? {
      assert Kept(s.callers[e.c], e.c, s.callers[e.c].enrolled, s.slots);
      assert Apply(s, e) == ApplyRegister(s, e.c);
    } else {
      AllocatedStay(s, e);
    }
  }

  lemma {:induction false} MuteRun(s: State, events: seq<Event>, c: nat, n: nat)
    requires Inv(s) && Legal(s, events) && Mute(s, c, n)
    ensures Mute(After(s, events), c, n)
    decreases |events|
  {
    if events != [] {
      InvStep(s, events[0]);
      MuteStep(s, events[0], c, n);
      MuteRun(Apply(s, events[0]), events[1..], c, n);
    }
  }

  /**
  A registration on a dead connection is refused and leaves everything shared alone; whatever
  happens afterwards, the channels it left unregistered never enter the map and the call's frame
  never reaches a wire.
  */
  lemma RegistrationAfterDeathIsRefused(s: State, c: nat, events: seq<Event>, k: nat)
    requires Inv(s) && Enabled(s, Register(c)) && s.core.disconnected
    requires Legal(Apply(s, Register(c)), events) && s.callers[c].enrolled <= k < |s.callers[c].chans|
    ensures var m := Apply(s, Register(c)); m.core == s.core && m.slots == s.slots
    ensures var t := After(Apply(s, Register(c)), events);
            && c < |t.callers| && !t.callers[c].live && t.callers[c].wire.Unsent?
            && t.callers[c].chans == s.callers[c].chans && !InMap(t, s.callers[c].chans[k])
  {
    var m := Apply(s, Register(c));
    RefusedIsMute(s, c);
    InvStep(s, Register(c));
    MuteRun(m, events, c, s.callers[c].enrolled);
    ChannelsStay(m, events, c);
    RunKeepsInv(m, events);
  }

  lemma RefusedIsMute(s: State, c: nat)
    requires Inv(s) && Enabled(s, Register(c)) && s.core.disconnected
    ensures var m := Apply(s, Register(c));
            m.core == s.core && m.slots == s.slots && m.callers == s.callers[c := s.callers[c].(live := false)]
            && Mute(m, c, s.callers[c].enrolled)
  {
    assert Paced(s.callers[c]);
    assert Apply(s, Register(c)) == ApplyRegister(s, c);
    forall k | s.callers[c].enrolled <= k < |s.callers[c].chans|
      ensures s.slots[s.callers[c].chans[k]].phase.Allocated?
    {
      assert Kept(s.callers[c], c, k, s.slots);
    }
  }

  lemma {:induction false} ChannelsStay(s: State, events: seq<Event>, c: nat)
    requires Inv(s) && Legal(s, events) && c < |s.callers| && !s.callers[c].live && s.callers[c].wire.Unsent?
    ensures var t := After(s, events); c < |t.callers| && t.callers[c].chans == s.callers[c].chans
    decreases |events|
  {
    if events != [] {
      InvStep(s, events[0]);
      OverStaysOver(s, events[0], c);
      ChannelsStay(Apply(s, events[0]), events[1..], c);
    }
  }

  // ---- Teardown.

  /** The error a teardown has for the waiters it finds. */
  function TeardownError(e: Event): Failure
    requires e.Drain? || e.InstallDrain?
  {
    FanCopy(if e.Drain? then e.e else Disconnected)
  }

  lemma TeardownTakes(s: State, e: Event, id: nat)
    requires Inv(s) && Enabled(s, e) && (e.Drain? || e.InstallDrain?) && id in s.core.waiters
    ensures var t := Apply(s, e);
            s.core.waiters[id] < |t.slots|
            && t.slots[s.core.waiters[id]].phase == Taken(Fault(TeardownError(e)), true)
  {
  }

  /**
  Every waiter a teardown finds, on its own or at the start of a revival, is owed one error, and
  that is all its channel can ever hold.
  */
  lemma TeardownTellsEveryWaiter(s: State, e: Event, id: nat, events: seq<Event>)
    requires Inv(s) && Enabled(s, e) && (e.Drain? || e.InstallDrain?) && id in s.core.waiters
    requires Legal(Apply(s, e), events)
    ensures var t := After(Apply(s, e), events);
            && s.core.waiters[id] < |t.slots|
            && var slot := t.slots[s.core.waiters[id]];
               && (slot.phase == Taken(Fault(TeardownError(e)), true) || slot.phase == Gone(Drained))
               && (slot.phase.Gone? ==> slot.closed || slot.inbox == Some(Fault(TeardownError(e))))
  {
    TeardownTakes(s, e, id);
    InvStep(s, e);
    DrainedHolds(Apply(s, e), events, s.core.waiters[id], Fault(TeardownError(e)));
  }

  lemma DrainedHolds(m: State, events: seq<Event>, a: nat, reply: Reply)
    requires Inv(m) && Legal(m, events) && a < |m.slots| && m.slots[a].phase == Taken(reply, true)
    ensures var t := After(m, events);
            && a < |t.slots|
            && (t.slots[a].phase == Taken(reply, true) || t.slots[a].phase == Gone(Drained))
            && (t.slots[a].phase.Gone? ==> t.slots[a].closed || t.slots[a].inbox == Some(reply))
  {
    WrittenAtMostOnce(m, events);
    RunKeepsInv(m, events);
    assert Later(m.slots[a], After(m, events).slots[a]);
    assert Posted(After(m, events).slots[a]);
  }

  predicate InMap(s: State, a: nat) {
    a < |s.slots| && s.slots[a].id in s.core.waiters && s.core.waiters[s.slots[a].id] == a
  }

  /** Each way out of the map, with the step that takes it. */
  predicate LeftBy(s: State, e: Event, a: nat, phase: Phase)
    requires Shape(s) && a < |s.slots|
  {
    match phase
    case Taken(reply, drained) =>
      if drained then e.InstallDrain? || e.Drain?
      else e.RouteFrame? && Classify(e.f) == Route(s.slots[a].id, reply)
    case Gone(GuardDropped) => e == DropGuard(a)
    case Gone(Removed) => e == RemoveWaiter(a)
    case Gone(Evicted) =>
      (e.DropGuard? || e.RemoveWaiter?) && e.a < |s.slots|
      && s.slots[e.a].id == s.slots[a].id && s.slots[e.a].epoch != s.slots[a].epoch
    case Gone(Overwritten) =>
      e.Register? && e.c < |s.callers| && s.callers[e.c].enrolled < |s.callers[e.c].chans|
      && var b := s.callers[e.c].chans[s.callers[e.c].enrolled];
         s.slots[b].id == s.slots[a].id && s.slots[b].epoch != s.slots[a].epoch
    case _ => false
  }

  lemma LeavesByRegister(s: State, c: nat, a: nat)
    requires Inv(s) && Enabled(s, Register(c)) && InMap(s, a)
    ensures var t := ApplyRegister(s, c); !InMap(t, a) ==> LeftBy(s, Register(c), a, t.slots[a].phase)
  {
    var b := s.callers[c].chans[s.callers[c].enrolled];
    assert Kept(s.callers[c], c, s.callers[c].enrolled, s.slots);
    RangesApart(s.slots, Tops(s), a, b);
  }

  /** What taking `a`'s id out of the map does to channel `b` in it. */
  lemma UnhookHits(slots: seq<Slot>, tops: seq<nat>, waiters: map<nat, nat>, a: nat, b: nat, own: Exit)
    requires Hooked(waiters, slots) && Tiled(slots, tops) && a < |slots| && b < |slots|
    requires slots[b].id in waiters && waiters[slots[b].id] == b && slots[b].id == slots[a].id
    ensures Unhook(slots, waiters, a, own)[b].phase == Gone(if a == b then own else Evicted)
    ensures a != b ==> slots[a].epoch != slots[b].epoch
  {
    RangesApart(slots, tops, a, b);
  }

  lemma LeavesByGuard(s: State, g: nat, a: nat)
    requires Shape(s) && Hooked(s.core.waiters, s.slots) && Tiled(s.slots, Tops(s))
    requires Enabled(s, DropGuard(g)) && InMap(s, a)
    ensures var t := ApplyDropGuard(s, g); !InMap(t, a) ==> LeftBy(s, DropGuard(g), a, t.slots[a].phase)
  {
    if s.slots[g].id == s.slots[a].id {
      UnhookHits(s.slots, Tops(s), s.core.waiters, g, a, GuardDropped);
    }
  }

  lemma LeavesByRemoval(s: State, g: nat, a: nat)
    requires Shape(s) && Hooked(s.core.waiters, s.slots) && Tiled(s.slots, Tops(s))
    requires Enabled(s, RemoveWaiter(g)) && InMap(s, a)
    ensures var t := ApplyRemove(s, g); !InMap(t, a) ==> LeftBy(s, RemoveWaiter(g), a, t.slots[a].phase)
  {
    if s.slots[g].id == s.slots[a].id {
      UnhookHits(s.slots, Tops(s), s.core.waiters, g, a, Removed);
    }
  }

  lemma LeavesByRoute(s: State, f: Frame, a: nat)
    requires Inv(s) && Enabled(s, RouteFrame(f)) && InMap(s, a)
    ensures var t := ApplyRoute(s, f); !InMap(t, a) ==> LeftBy(s, RouteFrame(f), a, t.slots[a].phase)
  {
  }

  lemma LeavesByTable(s: State, e: Event, a: nat)
    requires Inv(s) && Enabled(s, e) && OfTable(e) && InMap(s, a)
    ensures var t := ApplyTable(s, e); !InMap(t, a) ==> LeftBy(s, e, a, t.slots[a].phase)
  {
    if e.Register? {
      LeavesByRegister(s, e.c, a);
    } else if e.DropGuard? {
      LeavesByGuard(s, e.a, a);
    } else if e.RemoveWaiter? {
      LeavesByRemoval(s, e.a, a);
    } else if e.RouteFrame? {
      LeavesByRoute(s, e.f, a);
    }
  }

  /**
  A waiter leaves the map in exactly one way, and the two ways the design does not know
  about, eviction and overwriting, need a second channel from another generation.
  */
  lemma WhyAWaiterLeaves(s: State, e: Event, a: nat)
    requires Inv(s) && Enabled(s, e) && InMap(s, a)
    ensures var t := Apply(s, e);
            a < |t.slots| && (!InMap(t, a) ==> LeftBy(s, e, a, t.slots[a].phase))
  {
    RangesStay(s, e);
    if OfTable(e) { LeavesByTable(s, e, a); } else { TableOnly(s, e); }
  }

  /** Taking `a`'s id out of the map hits another channel exactly when one of another generation holds it. */
  lemma RemovalEvicts(s: State, t: State, a: nat)
    requires Inv(s) && a < |s.slots| == |t.slots| && t.core.waiters == s.core.waiters - {s.slots[a].id}
    requires forall b :: 0 <= b < |s.slots| ==> SameRange(s.slots[b], t.slots[b])
    ensures (exists b: nat :: b != a && InMap(s, b) && !InMap(t, b))
            <==> (s.slots[a].id in s.core.waiters
                  && s.slots[s.core.waiters[s.slots[a].id]].epoch != s.slots[a].epoch)
  {
    var id := s.slots[a].id;
    if id in s.core.waiters {
      var b := s.core.waiters[id];
      assert SameRange(s.slots[b], t.slots[b]);
      assert InMap(s, b) && !InMap(t, b);
      RangesApart(s.slots, Tops(s), a, b);
    }
    forall b: nat | b != a && InMap(s, b) && !InMap(t, b) ensures id in s.core.waiters && s.core.waiters[id] == b {
      assert SameRange(s.slots[b], t.slots[b]);
    }
  }

  /**
  Dropping a guard takes away somebody else's waiter exactly when the id is registered again
  by a channel of another generation. So "ids are never reused" protects a guard only as long
  as no revival restarted the counter under it.
  */
  lemma StaleGuardEvicts(s: State, a: nat)
    requires Inv(s) && Enabled(s, DropGuard(a))
    ensures var t := Apply(s, DropGuard(a));
            (exists b: nat :: b != a && InMap(s, b) && !InMap(t, b))
            <==> (s.slots[a].id in s.core.waiters
                  && s.slots[s.core.waiters[s.slots[a].id]].epoch != s.slots[a].epoch)
  {
    RangesStay(s, DropGuard(a));
    RemovalEvicts(s, Apply(s, DropGuard(a)), a);
  }

  /** The removal after a failed send is no better. */
  lemma StaleRemovalEvicts(s: State, a: nat)
    requires Inv(s) && Enabled(s, RemoveWaiter(a))
    ensures var t := Apply(s, RemoveWaiter(a));
            (exists b: nat :: b != a && InMap(s, b) && !InMap(t, b))
            <==> (s.slots[a].id in s.core.waiters
                  && s.slots[s.core.waiters[s.slots[a].id]].epoch != s.slots[a].epoch)
  {
    RangesStay(s, RemoveWaiter(a));
    RemovalEvicts(s, Apply(s, RemoveWaiter(a)), a);
  }

  /** The channel a registration is about. */
  function Newcomer(s: State, c: nat): nat
    requires Shape(s) && Enabled(s, Register(c))
  {
    s.callers[c].chans[s.callers[c].enrolled]
  }

  /**
  Registering takes somebody else's waiter out of the map exactly when the connection is up and a
  channel of another generation holds the id: the newcomer was numbered before a revival.
  */
  lemma LateRegistrationOverwrites(s: State, c: nat)
    requires Inv(s) && Enabled(s, Register(c))
    ensures var t, a := Apply(s, Register(c)), Newcomer(s, c);
            (exists b: nat :: b != a && InMap(s, b) && !InMap(t, b))
            <==> (!s.core.disconnected && s.slots[a].id in s.core.waiters
                  && s.slots[s.core.waiters[s.slots[a].id]].epoch != s.slots[a].epoch)
  {
    var t, a := Apply(s, Register(c)), Newcomer(s, c);
    RegisterMoves(s, c);
    if !s.core.disconnected {
      OverwriteHits(s, t, a);
    }
  }

  lemma RegisterMoves(s: State, c: nat)
    requires Inv(s) && Enabled(s, Register(c))
    ensures var t, a := Apply(s, Register(c)), Newcomer(s, c);
            && |t.slots| == |s.slots| && s.slots[a].phase.Allocated?
            && (forall b :: 0 <= b < |s.slots| ==> SameRange(s.slots[b], t.slots[b]))
            && t.core.waiters == if s.core.disconnected then s.core.waiters else s.core.waiters[s.slots[a].id := a]
  {
    assert Kept(s.callers[c], c, s.callers[c].enrolled, s.slots);
    RangesStay(s, Register(c));
    assert Apply(s, Register(c)) == ApplyRegister(s, c);
  }

  lemma OverwriteHits(s: State, t: State, a: nat)
    requires Inv(s) && a < |s.slots| == |t.slots| && s.slots[a].phase.Allocated?
    requires t.core.waiters == s.core.waiters[s.slots[a].id := a]
    requires forall b :: 0 <= b < |s.slots| ==> SameRange(s.slots[b], t.slots[b])
    ensures (exists b: nat :: b != a && InMap(s, b) && !InMap(t, b))
            <==> (s.slots[a].id in s.core.waiters
                  && s.slots[s.core.waiters[s.slots[a].id]].epoch != s.slots[a].epoch)
  {
    var id := s.slots[a].id;
    if id in s.core.waiters {
      var b := s.core.waiters[id];
      assert SameRange(s.slots[b], t.slots[b]);
      assert InMap(s, b) && !InMap(t, b);
      RangesApart(s.slots, Tops(s), a, b);
    }
    forall b: nat | b != a && InMap(s, b) && !InMap(t, b) ensures id in s.core.waiters && s.core.waiters[id] == b {
      assert SameRange(s.slots[b], t.slots[b]);
    }
  }

  // ---- Runs in which nobody carries an id across a revival.

  /**
  Every id is registered, removed and noted in the generation that allocated it. A note may also
  come late if the ring is still to be cleared.
  */
  predicate Timely(s: State, e: Event)
    requires Shape(s) && Enabled(s, e)
  {
    match e
    case Register(c) => s.slots[s.callers[c].chans[s.callers[c].enrolled]].epoch == Epoch(s)
    case DropGuard(a) => s.slots[a].epoch == Epoch(s) || s.slots[a].id !in s.core.waiters
    case RemoveWaiter(a) => s.slots[a].epoch == Epoch(s) || s.slots[a].id !in s.core.waiters
    case NoteDeparture(a) => s.slots[a].epoch == Epoch(s) || s.install == 4
    case _ => true
  }

  ghost predicate TimelyRun(s: State, events: seq<Event>)
    requires Shape(s)
    decreases |events|
  {
    events == [] || (Enabled(s, events[0]) && Timely(s, events[0]) && TimelyRun(Apply(s, events[0]), events[1..]))
  }

  ghost predicate Current(s: State) {
    && Recent(s.core.waiters, s.slots, Epoch(s))
    && OrdinaryExits(s.slots)
    && (s.install != 4 ==> forall i :: 0 <= i < |s.departed| ==> Deserted(s.slots, Epoch(s), s.departed[i]))
  }

  /** All waiters belong to generation `epoch`. */
  ghost predicate Recent(waiters: map<nat, nat>, slots: seq<Slot>, epoch: nat) {
    forall id :: id in waiters ==> waiters[id] < |slots| && slots[waiters[id]].epoch == epoch
  }

  ghost predicate Deserted(slots: seq<Slot>, epoch: nat, id: nat) {
    exists a :: 0 <= a < |slots| && slots[a].id == id && slots[a].epoch == epoch && slots[a].phase == Gone(GuardDropped)
  }

  lemma DesertedStays(s: State, e: Event, epoch: nat, id: nat)
    requires Inv(s) && Enabled(s, e) && Deserted(s.slots, epoch, id)
    ensures Deserted(Apply(s, e).slots, epoch, id)
  {
    LaterStep(s, e);
    var a :| 0 <= a < |s.slots| && s.slots[a].id == id && s.slots[a].epoch == epoch
             && s.slots[a].phase == Gone(GuardDropped);
    assert Later(s.slots[a], Apply(s, e).slots[a]);
  }

  lemma RecentTable(s: State, e: Event)
    requires Inv(s) && Enabled(s, e) && OfTable(e) && Timely(s, e) && Current(s)
    ensures var t := ApplyTable(s, e); Recent(t.core.waiters, t.slots, Epoch(s))
  {
    RangesStayTable(s, e);
    var t := ApplyTable(s, e);
    forall id | id in t.core.waiters
      ensures t.core.waiters[id] < |t.slots| && t.slots[t.core.waiters[id]].epoch == Epoch(s)
    {
      var a := t.core.waiters[id];
      assert SameRange(s.slots[a], t.slots[a]);
    }
  }

  lemma CurrentWaiters(s: State, e: Event)
    requires Inv(s) && Enabled(s, e) && Timely(s, e) && Current(s)
    ensures var t := Apply(s, e); Recent(t.core.waiters, t.slots, Epoch(t))
  {
    EpochStep(s, e);
    if OfTable(e) {
      RecentTable(s, e);
    } else {
      TableOnly(s, e);
      assert e.ResetIds? ==> s.core.waiters == map[];
    }
  }

  /** No waiter was evicted or overwritten, and whoever has yet to note a departure dropped its own guard. */
  ghost predicate OrdinaryExits(slots: seq<Slot>) {
    forall a :: 0 <= a < |slots| ==>
      && slots[a].phase != Gone(Evicted) && slots[a].phase != Gone(Overwritten)
      && (slots[a].leaving ==> slots[a].phase == Gone(GuardDropped))
  }

  lemma OrdinaryRegister(s: State, c: nat)
    requires Inv(s) && Enabled(s, Register(c)) && Timely(s, Register(c)) && Current(s)
    ensures OrdinaryExits(ApplyRegister(s, c).slots)
  {
    var b := s.callers[c].chans[s.callers[c].enrolled];
    assert Kept(s.callers[c], c, s.callers[c].enrolled, s.slots);
    if s.slots[b].id in s.core.waiters {
      RangesApart(s.slots, Tops(s), b, s.core.waiters[s.slots[b].id]);
    }
  }

  lemma OrdinaryUnhook(s: State, a: nat, own: Exit)
    requires Inv(s) && a < |s.slots| && Current(s) && own in {GuardDropped, Removed}
    requires s.slots[a].epoch == Epoch(s) || s.slots[a].id !in s.core.waiters
    ensures var slots := Unhook(s.slots, s.core.waiters, a, own);
            OrdinaryExits(slots) && (s.slots[a].id in s.core.waiters ==> slots[a].phase == Gone(own))
  {
    if s.slots[a].id in s.core.waiters {
      assert Posted(s.slots[s.core.waiters[s.slots[a].id]]);
      RangesApart(s.slots, Tops(s), a, s.core.waiters[s.slots[a].id]);
    }
  }

  lemma OrdinaryTable(s: State, e: Event)
    requires Inv(s) && Enabled(s, e) && OfTable(e) && Timely(s, e) && Current(s)
    ensures OrdinaryExits(ApplyTable(s, e).slots)
  {
    if e.Register? {
      OrdinaryRegister(s, e.c);
    } else if e.DropGuard? {
      OrdinaryUnhook(s, e.a, GuardDropped);
    } else if e.RemoveWaiter? {
      OrdinaryUnhook(s, e.a, Removed);
    } else {
      OrdinaryElse(s, e);
    }
  }

  lemma OrdinaryElse(s: State, e: Event)
    requires Shape(s) && Enabled(s, e) && OrdinaryExits(s.slots)
    requires Hooked(s.core.waiters, s.slots) && Mail(s.slots)
    requires e.Number? || e.NoteDeparture? || e.RouteFrame? || e.Deliver? || e.Drain? || e.InstallDrain?
    ensures OrdinaryExits(ApplyTable(s, e).slots)
  {
    if e.RouteFrame? {
      var a := s.core.waiters[e.f.messageId];
      assert Posted(s.slots[a]);
    } else if e.Deliver? {
      assert !s.slots[e.a].leaving;
    }
  }

  lemma CurrentExits(s: State, e: Event)
    requires Inv(s) && Enabled(s, e) && Timely(s, e) && Current(s)
    ensures OrdinaryExits(Apply(s, e).slots)
  {
    if OfTable(e) { OrdinaryTable(s, e); } else { TableOnly(s, e); }
  }

  /** What happens to the log of departures. */
  lemma DepartedStep(s: State, e: Event)
    requires Shape(s) && Enabled(s, e)
    ensures var t := Apply(s, e);
            && (e.ClearAbandoned? ==> t.departed == [])
            && (e.NoteDeparture? ==> t.departed == s.departed + [s.slots[e.a].id])
            && (!e.ClearAbandoned? && !e.NoteDeparture? ==> t.departed == s.departed)
  {
    if e.NoteDeparture? {
      assert Apply(s, e) == ApplyNote(s, e.a);
    } else if !e.ClearAbandoned? {
      RingUntouched(s, e);
    }
  }

  /** The counter restarts in one step only, and the ring is cleared in the next. */
  lemma EpochStep(s: State, e: Event)
    requires Shape(s) && Enabled(s, e)
    ensures var t := Apply(s, e);
            && (!e.ResetIds? ==> Epoch(t) == Epoch(s)) && (e.ResetIds? ==> t.install == 4)
            && (t.install != 4 && !e.ClearAbandoned? ==> s.install != 4)
  {
  }

  lemma CurrentDeparted(s: State, e: Event)
    requires Inv(s) && Enabled(s, e) && Timely(s, e) && Current(s)
    ensures var t := Apply(s, e);
            t.install != 4 ==> forall i :: 0 <= i < |t.departed| ==> Deserted(t.slots, Epoch(t), t.departed[i])
  {
    var t := Apply(s, e);
    DepartedStep(s, e);
    EpochStep(s, e);
    if t.install != 4 && !e.ClearAbandoned? {
      forall i | 0 <= i < |t.departed| ensures Deserted(t.slots, Epoch(t), t.departed[i]) {
        if e.NoteDeparture? && i == |s.departed| {
          assert s.slots[e.a].phase == Gone(GuardDropped) && s.slots[e.a].epoch == Epoch(s);
          assert Deserted(s.slots, Epoch(s), t.departed[i]);
        } else {
          assert t.departed[i] == s.departed[i];
        }
        DesertedStays(s, e, Epoch(s), t.departed[i]);
      }
    }
  }

  lemma CurrentStep(s: State, e: Event)
    requires Inv(s) && Enabled(s, e) && Timely(s, e) && Current(s)
    ensures Current(Apply(s, e))
  {
    InvStep(s, e);
    CurrentWaiters(s, e);
    CurrentExits(s, e);
    CurrentDeparted(s, e);
  }

  lemma {:induction false} TimelyRunsStayCurrent(s: State, events: seq<Event>)
    requires Inv(s) && Current(s) && TimelyRun(s, events)
    ensures Legal(s, events) && Inv(After(s, events)) && Current(After(s, events))
    decreases |events|
  {
    if events != [] {
      InvStep(s, events[0]);
      CurrentStep(s, events[0]);
      TimelyRunsStayCurrent(Apply(s, events[0]), events[1..]);
    }
  }

  /** Some interleaving in which nobody carries an id across a revival leads to `s`. */
  ghost predicate TimelyReachable(s: State) {
    exists events :: TimelyRun(INITIAL, events) && Legal(INITIAL, events) && After(INITIAL, events) == s
  }

  lemma InitialCurrent()
    ensures Current(INITIAL)
  {
  }

  lemma TimelyReachableCurrent(s: State)
    requires TimelyReachable(s)
    ensures Inv(s) && Current(s)
  {
    var events :| TimelyRun(INITIAL, events) && Legal(INITIAL, events) && After(INITIAL, events) == s;
    InitialInv();
    InitialCurrent();
    TimelyRunsStayCurrent(INITIAL, events);
  }

  /**
  In a run where nobody carries an id across a revival, a waiter leaves the map only by being
  routed, drained, dropped or removed.
  */
  lemma TimelyExits(s: State, a: nat)
    requires TimelyReachable(s) && a < |s.slots| && s.slots[a].phase.Gone?
    ensures s.slots[a].phase.exit != Evicted && s.slots[a].phase.exit != Overwritten
  {
    TimelyReachableCurrent(s);
    assert s.slots[a].phase != Gone(Evicted) && s.slots[a].phase != Gone(Overwritten);
  }

  /** In such a run, whatever comes between a guard's two lock sections, no remembered departed id is registered. */
  lemma TimelyRingIsDisjoint(s: State, id: nat)
    requires TimelyReachable(s) && id in s.core.abandoned
    ensures id !in s.core.waiters
  {
    TimelyReachableCurrent(s);
    if id in s.core.waiters {
      assert id in s.departed;
      var i :| 0 <= i < |s.departed| && s.departed[i] == id;
      assert Deserted(s.slots, Epoch(s), s.departed[i]);
      var a :| 0 <= a < |s.slots| && s.slots[a].id == id && s.slots[a].epoch == Epoch(s)
               && s.slots[a].phase == Gone(GuardDropped);
      RangesApart(s.slots, Tops(s), a, s.core.waiters[id]);
    }
  }

  ghost predicate RingApart(s: State) {
    forall id :: id in s.core.abandoned ==> id !in s.core.waiters
  }

  /**
  A note makes ring and map overlap exactly when a channel of another generation holds the id by
  then: a whole revival and a registration ran between the guard's two lock sections.
  */
  lemma LateNoteOverlaps(s: State, a: nat)
    requires Inv(s) && RingApart(s) && Enabled(s, NoteDeparture(a))
    ensures RingApart(Apply(s, NoteDeparture(a)))
            <==> !exists b: nat :: InMap(s, b) && s.slots[b].id == s.slots[a].id && s.slots[b].epoch != s.slots[a].epoch
  {
    var id := s.slots[a].id;
    var t := Apply(s, NoteDeparture(a));
    assert t.core.waiters == s.core.waiters;
    assert t.core.abandoned[|t.core.abandoned| - 1] == id;
    if id in s.core.waiters {
      var b := s.core.waiters[id];
      assert InMap(s, b) && Posted(s.slots[a]);
      RangesApart(s.slots, Tops(s), a, b);
    } else {
      forall x | x in t.core.abandoned ensures x !in t.core.waiters {
        assert x in s.core.abandoned || x == id;
      }
    }
  }

  /** Every routed sub-frame is counted once, and the ring is the newest departed ids. */
  lemma RoutingPartition(s: State)
    requires Reachable(s)
    ensures s.core.tally.ok + s.core.tally.err + s.core.tally.late + s.core.tally.stray == s.routed
    ensures |s.core.abandoned| == Min(|s.departed|, ABANDONED_ID_MEMORY)
    ensures s.core.abandoned == s.departed[|s.departed| - |s.core.abandoned|..]
  {
    ReachableInv(s);
  }
}
