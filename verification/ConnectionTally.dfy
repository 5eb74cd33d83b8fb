/**
What the four delivery counters say about every run, and what a miss and a teardown tell whom.
*/
module ConnectionTally {
  import opened ConnectionState
  import opened ConnectionSteps
  import opened ConnectionSafety

  /** The receiver task has put an answer (or a fault) into this channel, or is about to. */
  predicate Handed(slot: Slot, answer: bool) {
    || (slot.phase.Taken? && !slot.phase.drained && slot.phase.reply.Answer? == answer)
    || (slot.phase == Gone(Routed) && slot.inbox.Some? && slot.inbox.value.Answer? == answer)
  }

  function One(slot: Slot, answer: bool): nat {
    if Handed(slot, answer) then 1 else 0
  }

  function Channels(slots: seq<Slot>, answer: bool): nat {
    if slots == [] then 0 else Channels(slots[..|slots| - 1], answer) + One(slots[|slots| - 1], answer)
  }

  lemma {:induction false} ChannelsAgree(a: seq<Slot>, b: seq<Slot>, answer: bool)
    requires |a| == |b|
    requires forall i :: 0 <= i < |a| ==> One(a[i], answer) == One(b[i], answer)
    ensures Channels(a, answer) == Channels(b, answer)
  {
    if a != [] {
      ChannelsAgree(a[..|a| - 1], b[..|b| - 1], answer);
    }
  }

  lemma {:induction false} ChannelSet(slots: seq<Slot>, a: nat, slot: Slot, answer: bool)
    requires a < |slots|
    ensures Channels(slots[a := slot], answer) + One(slots[a], answer) == Channels(slots, answer) + One(slot, answer)
  {
    var n := |slots| - 1;
    if a < n {
      ChannelSet(slots[..n], a, slot, answer);
      assert slots[a := slot][..n] == slots[..n][a := slot];
    } else {
      assert slots[a := slot][..n] == slots[..n];
    }
  }

  lemma ChannelAdded(slots: seq<Slot>, slot: Slot, answer: bool)
    ensures Channels(slots + [slot], answer) == Channels(slots, answer) + One(slot, answer)
  {
    assert (slots + [slot])[..|slots|] == slots;
  }

  /** The counters of successes and of errors are the channels handed an answer and those handed a fault. */
  ghost predicate Exact(s: State) {
    s.core.tally.ok == Channels(s.slots, true) && s.core.tally.err == Channels(s.slots, false)
  }

  /** Steps that leave every channel's standing as it was. */
  predicate Neutral(e: Event) {
    e.Register? || e.DropGuard? || e.NoteDeparture? || e.RemoveWaiter? || e.Drain? || e.InstallDrain?
  }

  lemma RegisterIsNeutral(s: State, c: nat, a: nat, answer: bool)
    requires Inv(s) && Enabled(s, Register(c)) && a < |s.slots|
    ensures var t := ApplyRegister(s, c);
            |t.slots| == |s.slots| && Handed(t.slots[a], answer) == Handed(s.slots[a], answer)
  {
    assert Kept(s.callers[c], c, s.callers[c].enrolled, s.slots);
    assert Posted(s.slots[a]);
  }

  lemma UnhookIsNeutral(s: State, b: nat, own: Exit, a: nat, answer: bool)
    requires Shape(s) && Hooked(s.core.waiters, s.slots) && a < |s.slots| && b < |s.slots| && !own.Routed?
    ensures Handed(Unhook(s.slots, s.core.waiters, b, own)[a], answer) == Handed(s.slots[a], answer)
  {
  }

  lemma StandingStays(s: State, e: Event, a: nat, answer: bool)
    requires Inv(s) && Enabled(s, e) && a < |s.slots| && Neutral(e)
    ensures var t := ApplyTable(s, e);
            |t.slots| == |s.slots| && Handed(t.slots[a], answer) == Handed(s.slots[a], answer)
  {
    if e.Register? {
      RegisterIsNeutral(s, e.c, a, answer);
    } else if e.DropGuard? {
      UnhookIsNeutral(s, e.a, GuardDropped, a, answer);
    } else if e.RemoveWaiter? {
      UnhookIsNeutral(s, e.a, Removed, a, answer);
    }
  }

  lemma NeutralCounters(s: State, e: Event)
    requires Shape(s) && Enabled(s, e) && Neutral(e)
    ensures ApplyTable(s, e).core.tally == s.core.tally
  {
  }

  lemma ExactElse(s: State, e: Event)
    requires Inv(s) && Enabled(s, e) && Exact(s) && Neutral(e)
    ensures Exact(ApplyTable(s, e))
  {
    var slots := ApplyTable(s, e).slots;
    forall answer, a | 0 <= a < |s.slots|
      ensures |slots| == |s.slots| && One(slots[a], answer) == One(s.slots[a], answer)
    {
      StandingStays(s, e, a, answer);
    }
    SameLength(s, e);
    ChannelsAgree(s.slots, slots, true);
    ChannelsAgree(s.slots, slots, false);
    NeutralCounters(s, e);
  }

  lemma SameLength(s: State, e: Event)
    requires Shape(s) && Enabled(s, e) && Neutral(e)
    ensures |ApplyTable(s, e).slots| == |s.slots|
  {
  }

  lemma RoutedCounts(core: Core, slots: seq<Slot>, a: nat, id: nat, reply: Reply)
    requires a < |slots| && slots[a].phase.Waiting? && id in core.waiters
    requires core.tally.ok == Channels(slots, true) && core.tally.err == Channels(slots, false)
    ensures var after, t := slots[a := slots[a].(phase := Taken(reply, false))], Dispatch(core, id, reply).tally;
            t.ok == Channels(after, true) && t.err == Channels(after, false)
  {
    var slot := slots[a].(phase := Taken(reply, false));
    ChannelSet(slots, a, slot, true);
    ChannelSet(slots, a, slot, false);
  }

  lemma ExactRoute(s: State, f: Frame)
    requires Inv(s) && Enabled(s, RouteFrame(f)) && Exact(s)
    ensures Exact(ApplyRoute(s, f))
  {
    RoutedCounts(s.core, s.slots, s.core.waiters[f.messageId], f.messageId, Classify(f).reply);
  }

  lemma ExactDeliver(s: State, a: nat)
    requires Inv(s) && Enabled(s, Deliver(a)) && Exact(s)
    ensures Exact(ApplyDeliver(s, a))
  {
    assert Posted(s.slots[a]);
    var slot := ApplyDeliver(s, a).slots[a];
    ChannelSet(s.slots, a, slot, true);
    ChannelSet(s.slots, a, slot, false);
  }

  lemma ExactStep(s: State, e: Event)
    requires Inv(s) && Enabled(s, e) && Exact(s)
    ensures Exact(Apply(s, e))
  {
    if e.RouteFrame? {
      ExactRoute(s, e.f);
    } else if e.Deliver? {
      ExactDeliver(s, e.a);
    } else if e.Number? {
      var slot := ApplyNumber(s, e.c).slots[|s.slots|];
      ChannelAdded(s.slots, slot, true);
      ChannelAdded(s.slots, slot, false);
    } else if OfTable(e) {
      ExactElse(s, e);
    } else {
      TableOnly(s, e);
      CountersOnly(s, e);
    }
  }

  lemma CountersOnly(s: State, e: Event)
    requires Shape(s) && Enabled(s, e) && !OfTable(e)
    ensures var t := Apply(s, e); t.core.tally.ok == s.core.tally.ok && t.core.tally.err == s.core.tally.err
  {
    if OfCaller(e) { CountedOwn(s, e); }
  }

  lemma {:induction false} RunsStayExact(s: State, events: seq<Event>)
    requires Inv(s) && Legal(s, events) && Exact(s)
    ensures Exact(After(s, events))
    decreases |events|
  {
    if events != [] {
      InvStep(s, events[0]);
      ExactStep(s, events[0]);
      RunsStayExact(Apply(s, events[0]), events[1..]);
    }
  }

  /**
  In every reachable state the two delivery counters are exact: one success for each channel an
  answer went into, one error for each a fault went into, and every other routed sub-frame is late
  or stray. A reply that found its receiver gone is no longer among the first two.
  */
  lemma CountersAreExact(s: State)
    requires Reachable(s)
    ensures s.core.tally.ok == Channels(s.slots, true) && s.core.tally.err == Channels(s.slots, false)
    ensures s.core.tally.late + s.core.tally.stray == s.routed - Channels(s.slots, true) - Channels(s.slots, false)
  {
    var events :| Legal(INITIAL, events) && After(INITIAL, events) == s;
    InitialInv();
    RunsStayExact(INITIAL, events);
    ReachableInv(s);
  }

  /** `id` is among the newest 512 of `log`. */
  ghost predicate Recent(log: seq<nat>, id: nat) {
    exists i :: 0 <= i < |log| && |log| - 512 <= i && log[i] == id
  }

  lemma RingIsRecent(ring: seq<nat>, log: seq<nat>, id: nat)
    requires Newest(ring, log)
    ensures id in ring <==> Recent(log, id)
  {
    if id in ring {
      var k :| 0 <= k < |ring| && ring[k] == id;
      assert log[|log| - |ring| + k] == id;
    }
    if Recent(log, id) {
      var i :| 0 <= i < |log| && |log| - 512 <= i && log[i] == id;
      assert ring[i - (|log| - |ring|)] == id;
    }
  }

  lemma MissCounts(s: State, f: Frame)
    requires Shape(s) && Enabled(s, RouteMiss(f))
    ensures Apply(s, RouteMiss(f)).core == Misroute(s.core, f.messageId)
  {
  }

  /** A sub-frame without a waiter is late if its id is among the newest 512 departures, and a stray otherwise. */
  lemma MissesAreToldApart(s: State, f: Frame)
    requires Reachable(s) && Shape(s) && Enabled(s, RouteMiss(f))
    ensures var before, after := s.core.tally, Apply(s, RouteMiss(f)).core.tally;
            && after.ok == before.ok && after.err == before.err
            && (Recent(s.departed, f.messageId) ==> after.late == before.late + 1 && after.stray == before.stray)
            && (!Recent(s.departed, f.messageId) ==> after.late == before.late && after.stray == before.stray + 1)
  {
    ReachableInv(s);
    RingIsRecent(s.core.abandoned, s.departed, f.messageId);
    MissCounts(s, f);
  }

  /** A teardown empties the map and tells every waiter: a lost connection, or for how long the server was silent. */
  lemma TeardownSaysWhy(s: State, e: Failure, a: nat)
    requires Inv(s) && a < |s.slots|
    ensures var t := Apply(s, Drain(e));
            && t.core.waiters == map[] && t.core.disconnected && |t.slots| == |s.slots|
            && (s.slots[a].phase.Waiting? ==>
                  t.slots[a].phase.Taken? && t.slots[a].phase.drained && t.slots[a].phase.reply.Fault?
                  && var told := t.slots[a].phase.reply.failure;
                     && (told.Unresponsive? <==> e.Unresponsive?)
                     && (e.Unresponsive? ==> told.silentFor == e.silentFor)
                     && (!e.Unresponsive? ==> told.Disconnected?))
            && (!s.slots[a].phase.Waiting? ==> t.slots[a] == s.slots[a])
  {
    assert Apply(s, Drain(e)) == ApplySever(s, e).(closing := s.closing + 1);
  }

  /** With nothing in between, a guard's two lock sections do what the guard does as a whole. */
  lemma GuardIsTwoSections(s: State, a: nat)
    requires Inv(s) && Enabled(s, DropGuard(a))
    ensures var t := Apply(s, DropGuard(a));
            if s.slots[a].id in s.core.waiters
            then Enabled(t, NoteDeparture(a)) && Apply(t, NoteDeparture(a)).core == Desert(s.core, s.slots[a].id)
            else !Enabled(t, NoteDeparture(a)) && t.core == Desert(s.core, s.slots[a].id)
  {
    var id := s.slots[a].id;
    var t := Apply(s, DropGuard(a));
    assert t == ApplyDropGuard(s, a);
    if id !in s.core.waiters {
      assert s.core.waiters - {id} == s.core.waiters;
    }
    if id in s.core.waiters {
      assert Apply(t, NoteDeparture(a)) == ApplyNote(t, a);
    }
  }
}
