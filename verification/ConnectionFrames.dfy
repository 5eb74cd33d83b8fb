/**
Which generation's wire a frame goes out on, and which generation's socket an answer came over.
Generation `q` numbers its ids in epoch `q` and
sends through queue `q`; a caller looks its queue up only after it has numbered its frame.
*/
module ConnectionFrames {
  import opened ConnectionState
  import opened ConnectionSteps
  import opened ConnectionSafety

  /** A frame handed to queue `q` bears ids of generation `q` only. */
  ghost predicate OwnGeneration(caller: Caller, slots: seq<Slot>) {
    !caller.wire.Unsent? ==>
      forall k :: 0 <= k < |caller.chans| ==>
        caller.chans[k] < |slots| && slots[caller.chans[k]].epoch == caller.wire.queue
  }

  /** No frame in any queue, on any wire or lost by any writer was numbered for another one. */
  ghost predicate Matched(s: State) {
    forall c :: 0 <= c < |s.callers| ==> OwnGeneration(s.callers[c], s.slots)
  }

  /** A frame is handed over while its own generation's queue is in place. */
  predicate Punctual(s: State, e: Event)
    requires Shape(s) && Enabled(s, e)
  {
    e.Enqueue? ==> forall k :: 0 <= k < |s.callers[e.c].chans| ==> s.slots[s.callers[e.c].chans[k]].epoch == s.queue
  }

  /** What one step does to one caller's frame: it is handed over once, to one queue, with fixed ids. */
  predicate FrameMoves(s: State, e: Event, c: nat, x: Caller, y: Caller) {
    && (!x.wire.Unsent? ==> !y.wire.Unsent? && y.wire.queue == x.wire.queue && y.chans == x.chans)
    && (x.wire.Unsent? && e != Enqueue(c) ==> y.wire.Unsent?)
    && (e == Enqueue(c) ==> y.wire == Queued(s.queue) && y.chans == x.chans)
  }

  lemma FrameMovesOwn(s: State, e: Event, c: nat)
    requires Shape(s) && Enabled(s, e) && OfCaller(e) && c < |s.callers|
    ensures var t := ApplyCaller(s, e); |t.callers| == |s.callers| && FrameMoves(s, e, c, s.callers[c], t.callers[c])
  {
  }

  /** A frame already handed over is complete: nothing is numbered or registered for it any more. */
  lemma FrameMovesTable(s: State, e: Event)
    requires Shape(s) && Enabled(s, e) && (e.Number? || e.Register?)
    requires Booked(s.callers, s.slots) && Paced(s.callers[e.c])
    ensures s.callers[e.c].wire.Unsent? && ApplyTable(s, e).callers[e.c].wire.Unsent?
  {
  }

  lemma FrameStep(s: State, e: Event, c: nat)
    requires Shape(s) && Enabled(s, e) && Booked(s.callers, s.slots) && AllPaced(s.callers) && c < |s.callers|
    ensures var t := Apply(s, e); |s.callers| <= |t.callers| && FrameMoves(s, e, c, s.callers[c], t.callers[c])
  {
    if OfCaller(e) {
      FrameMovesOwn(s, e, c);
    } else {
      CallersShape(s, e);
      if e.Number? || e.Register? {
        assert Paced(s.callers[e.c]);
        FrameMovesTable(s, e);
      }
    }
  }

  lemma NewcomersSendNothing(s: State, e: Event, c: nat)
    requires Shape(s) && Enabled(s, e)
    ensures var t := Apply(s, e); |s.callers| <= c < |t.callers| ==> t.callers[c].wire.Unsent?
  {
    if !OfCaller(e) { CallersShape(s, e); }
  }

  /** One caller's frame, before and after. */
  lemma OwnGenerationMoves(s: State, t: State, e: Event, c: nat, x: Caller, y: Caller)
    requires Shape(s) && Enabled(s, e) && c < |s.callers| && x == s.callers[c] && FrameMoves(s, e, c, x, y)
    requires |s.slots| <= |t.slots|
    requires forall a :: 0 <= a < |s.slots| ==> SameRange(s.slots[a], t.slots[a])
    ensures OwnGeneration(y, t.slots) <==> OwnGeneration(x, s.slots) && (e == Enqueue(c) ==> Punctual(s, e))
  {
    forall k | 0 <= k < |x.chans| ensures t.slots[x.chans[k]].epoch == s.slots[x.chans[k]].epoch {
      assert SameRange(s.slots[x.chans[k]], t.slots[x.chans[k]]);
    }
    assert y.chans == x.chans || y.wire.Unsent?;
  }

  /** Of all steps of all parties, exactly a late hand-over sends a frame out on another generation's wire. */
  lemma FramesMatchExactlyWhenPunctual(s: State, e: Event)
    requires Inv(s) && Enabled(s, e)
    ensures Matched(Apply(s, e)) <==> Matched(s) && Punctual(s, e)
  {
    forall c | 0 <= c < |s.callers| ensures StaysMatched(s, Apply(s, e), e, c) {
      MatchedCaller(s, e, c);
    }
    forall c | |s.callers| <= c < |Apply(s, e).callers|
      ensures OwnGeneration(Apply(s, e).callers[c], Apply(s, e).slots)
    {
      NewcomersSendNothing(s, e, c);
    }
    CallersOnlyGrow(s, e);
    MatchedPointwise(s, Apply(s, e), e);
  }

  ghost predicate StaysMatched(s: State, t: State, e: Event, c: nat)
    requires Shape(s) && Enabled(s, e)
  {
    && c < |s.callers| && c < |t.callers|
    && (OwnGeneration(t.callers[c], t.slots)
        <==> OwnGeneration(s.callers[c], s.slots) && (e == Enqueue(c) ==> Punctual(s, e)))
  }

  lemma CallersOnlyGrow(s: State, e: Event)
    requires Shape(s) && Enabled(s, e)
    ensures |s.callers| <= |Apply(s, e).callers|
  {
    if !OfCaller(e) { CallersShape(s, e); }
  }

  lemma MatchedCaller(s: State, e: Event, c: nat)
    requires Inv(s) && Enabled(s, e) && c < |s.callers|
    ensures StaysMatched(s, Apply(s, e), e, c)
  {
    RangesStay(s, e);
    FrameStep(s, e, c);
    OwnGenerationMoves(s, Apply(s, e), e, c, s.callers[c], Apply(s, e).callers[c]);
  }

  lemma MatchedPointwise(s: State, t: State, e: Event)
    requires Shape(s) && Enabled(s, e) && |s.callers| <= |t.callers|
    requires forall c :: 0 <= c < |s.callers| ==> StaysMatched(s, t, e, c)
    requires forall c :: |s.callers| <= c < |t.callers| ==> OwnGeneration(t.callers[c], t.slots)
    ensures Matched(t) <==> Matched(s) && Punctual(s, e)
  {
    if e.Enqueue? {
      assert StaysMatched(s, t, e, e.c);
    }
    if Matched(t) {
      forall c | 0 <= c < |s.callers| ensures OwnGeneration(s.callers[c], s.slots) {
        assert StaysMatched(s, t, e, c) && OwnGeneration(t.callers[c], t.slots);
      }
    }
    if Matched(s) && Punctual(s, e) {
      forall c | 0 <= c < |t.callers| ensures OwnGeneration(t.callers[c], t.slots) {
        assert c < |s.callers| ==> StaysMatched(s, t, e, c) && OwnGeneration(s.callers[c], s.slots);
      }
    }
  }

  ghost predicate PunctualRun(s: State, events: seq<Event>)
    requires Shape(s) && Legal(s, events)
    decreases |events|
  {
    events == [] || (Punctual(s, events[0]) && PunctualRun(Apply(s, events[0]), events[1..]))
  }

  /**
  Over every run: each frame queued, sent or lost anywhere bears ids of its wire's own generation
  if and only if every hand-over of the run was punctual.
  */
  lemma {:induction false} FramesMatchExactlyInPunctualRuns(s: State, events: seq<Event>)
    requires Inv(s) && Legal(s, events)
    ensures Matched(After(s, events)) <==> Matched(s) && PunctualRun(s, events)
    decreases |events|
  {
    if events != [] {
      InvStep(s, events[0]);
      FramesMatchExactlyWhenPunctual(s, events[0]);
      FramesMatchExactlyInPunctualRuns(Apply(s, events[0]), events[1..]);
    }
  }

  // ---- Answers.

  predicate CameOver(reply: Reply, epoch: nat) {
    reply.Answer? ==> reply.frame.socket == epoch
  }

  /** What the channel was handed, or is about to be, came over its own generation's socket. */
  predicate Native(slot: Slot) {
    && (slot.phase.Taken? ==> CameOver(slot.phase.reply, slot.epoch))
    && (slot.inbox.Some? ==> CameOver(slot.inbox.value, slot.epoch))
  }

  ghost predicate AllNative(slots: seq<Slot>) {
    forall a :: 0 <= a < |slots| ==> Native(slots[a])
  }

  /** An answer is routed to a waiter of the generation whose socket brought it. */
  predicate NativeRouting(s: State, e: Event)
    requires Shape(s) && Enabled(s, e)
  {
    e.RouteFrame? ==> CameOver(Classify(e.f).reply, s.slots[s.core.waiters[e.f.messageId]].epoch)
  }

  lemma NativeUpdate(slots: seq<Slot>, a: nat, x: Slot)
    requires AllNative(slots) && a < |slots|
    ensures AllNative(slots[a := x]) <==> Native(x)
  {
    assert slots[a := x][a] == x;
  }

  lemma NativeUnhook(slots: seq<Slot>, waiters: map<nat, nat>, a: nat, own: Exit)
    requires AllNative(slots) && a < |slots| && forall id :: id in waiters ==> waiters[id] < |slots|
    ensures AllNative(Unhook(slots, waiters, a, own))
  {
  }

  lemma NativeRegister(s: State, c: nat)
    requires Shape(s) && Enabled(s, Register(c)) && AllNative(s.slots)
    ensures AllNative(ApplyRegister(s, c).slots)
  {
  }

  lemma NativeRoute(s: State, f: Frame)
    requires Shape(s) && Enabled(s, RouteFrame(f)) && AllNative(s.slots)
    ensures AllNative(ApplyRoute(s, f).slots) <==> NativeRouting(s, RouteFrame(f))
  {
    var a := s.core.waiters[f.messageId];
    assert Native(s.slots[a]);
    NativeUpdate(s.slots, a, s.slots[a].(phase := Taken(Classify(f).reply, false)));
  }

  lemma NativeDeliver(s: State, a: nat)
    requires Shape(s) && Enabled(s, Deliver(a)) && AllNative(s.slots)
    ensures AllNative(ApplyDeliver(s, a).slots)
  {
    assert Native(s.slots[a]);
    NativeUpdate(s.slots, a, ApplyDeliver(s, a).slots[a]);
  }

  lemma NativeSever(slots: seq<Slot>, e: Failure)
    requires AllNative(slots)
    ensures AllNative(DoomAll(slots, e))
  {
    forall a | 0 <= a < |slots| ensures Native(Doomed(slots[a], e)) {
      assert Native(slots[a]);
    }
  }

  lemma NativeTable(s: State, e: Event)
    requires Shape(s) && Enabled(s, e) && OfTable(e) && AllNative(s.slots)
    ensures AllNative(ApplyTable(s, e).slots) <==> NativeRouting(s, e)
  {
    if e.RouteFrame? {
      NativeRoute(s, e.f);
    } else if e.Register? {
      NativeRegister(s, e.c);
    } else if e.Deliver? {
      NativeDeliver(s, e.a);
    } else if e.Drain? || e.InstallDrain? {
      NativeSever(s.slots, if e.Drain? then e.e else Disconnected);
    } else if e.DropGuard? {
      NativeUnhook(s.slots, s.core.waiters, e.a, GuardDropped);
    } else if e.RemoveWaiter? {
      NativeUnhook(s.slots, s.core.waiters, e.a, Removed);
    }
  }

  /** Of all steps of all parties, exactly a foreign routing hands a caller another generation's answer. */
  lemma AnswersAreNativeExactlyWhenRoutedSo(s: State, e: Event)
    requires Shape(s) && Enabled(s, e) && AllNative(s.slots)
    ensures AllNative(Apply(s, e).slots) <==> NativeRouting(s, e)
  {
    if OfTable(e) { NativeTable(s, e); } else { TableOnly(s, e); }
  }

  /** At every point of the run. */
  ghost predicate AlwaysNative(s: State, events: seq<Event>)
    requires Shape(s) && Legal(s, events)
    decreases |events|
  {
    AllNative(s.slots) && (events == [] || AlwaysNative(Apply(s, events[0]), events[1..]))
  }

  ghost predicate NativeRun(s: State, events: seq<Event>)
    requires Shape(s) && Legal(s, events)
    decreases |events|
  {
    events == [] || (NativeRouting(s, events[0]) && NativeRun(Apply(s, events[0]), events[1..]))
  }

  /**
  Over every run: no caller is ever handed an answer from another generation's socket if and only if
  no step of the run routed one so.
  */
  lemma {:induction false} AnswersStayNativeExactlyInNativeRuns(s: State, events: seq<Event>)
    requires Shape(s) && Legal(s, events) && AllNative(s.slots)
    ensures AlwaysNative(s, events) <==> NativeRun(s, events)
    decreases |events|
  {
    if events != [] {
      AnswersAreNativeExactlyWhenRoutedSo(s, events[0]);
      if AllNative(Apply(s, events[0]).slots) {
        AnswersStayNativeExactlyInNativeRuns(Apply(s, events[0]), events[1..]);
      }
    }
  }
}
