/**
What every interleaving keeps: the waiter map and the channels agree, a dead connection
holds no waiter, ids tile each generation, a channel is written at most once and only with
its own reply.
*/
module ConnectionSafety {
  import opened Bytes
  import opened ConnectionState
  import opened ConnectionSteps

  /** The map and the waiting channels are the same thing seen from two sides. */
  ghost predicate Hooked(waiters: map<nat, nat>, slots: seq<Slot>) {
    && (forall id :: id in waiters ==>
          waiters[id] < |slots| && slots[waiters[id]].id == id && slots[waiters[id]].phase.Waiting?)
    && (forall a :: 0 <= a < |slots| && slots[a].phase.Waiting? ==>
          slots[a].id in waiters && waiters[slots[a].id] == a)
  }

  /** No waiter is registered on a dead connection, and one being rebuilt counts as dead. */
  ghost predicate NoGhosts(s: State) {
    && (s.core.disconnected ==> s.core.waiters == map[])
    && (s.install > 0 ==> s.core.disconnected)
  }

  /** A final response the server sent to this id, with a good signature. */
  predicate Genuine(f: Frame, id: nat) {
    f.messageId == id && id != UNSOLICITED && f.verified && !f.status.Pending? && !f.status.SessionExpired?
  }

  /** A drained waiter is owed a teardown error, a routed one a reply to its own id. */
  predicate Owed(slot: Slot, reply: Reply, drained: bool) {
    if drained then reply.Fault? && FanCopy(reply.failure) == reply.failure
    else if reply.Answer? then Genuine(reply.frame, slot.id)
    else reply.failure in {BadSignature, Expired}
  }

  predicate Posted(slot: Slot) {
    && (slot.phase.Taken? ==> Owed(slot, slot.phase.reply, slot.phase.drained) && slot.inbox.None?)
    && (slot.inbox.Some? ==>
          && slot.phase.Gone? && slot.phase.exit in {Routed, Drained}
          && Owed(slot, slot.inbox.value, slot.phase.exit.Drained?))
    && (slot.phase.Gone? && slot.phase.exit in {Routed, Drained} ==> slot.inbox.Some? || slot.closed)
    && (slot.phase.Allocated? ==> !slot.closed)
    && (slot.leaving ==> slot.closed && !slot.phase.Waiting?)
  }

  ghost predicate Mail(slots: seq<Slot>) {
    forall a :: 0 <= a < |slots| ==> Posted(slots[a])
  }

  predicate Covers(slot: Slot, epoch: nat, i: nat) {
    slot.epoch == epoch && slot.id <= i < slot.id + slot.charge
  }

  /** In every generation the allocated ranges are disjoint, in order, and leave no gap. */
  ghost predicate Tiled(slots: seq<Slot>, tops: seq<nat>) {
    && (forall a :: 0 <= a < |slots| ==>
          slots[a].epoch < |tops| && slots[a].charge >= 1 && slots[a].id + slots[a].charge <= tops[slots[a].epoch])
    && (forall a, b :: 0 <= a < b < |slots| && slots[a].epoch == slots[b].epoch ==>
          slots[a].id + slots[a].charge <= slots[b].id)
    && (forall epoch, i :: 0 <= epoch < |tops| && 0 <= i < tops[epoch] ==> Found(slots, epoch, i))
  }

  ghost predicate Found(slots: seq<Slot>, epoch: nat, i: nat) {
    exists a :: 0 <= a < |slots| && Covers(slots[a], epoch, i)
  }

  /** A caller's channels are its own, and enrolled in order. */
  predicate Kept(caller: Caller, c: nat, k: nat, slots: seq<Slot>)
    requires k < |caller.chans| <= |caller.charges|
    requires caller.chans[k] < |slots|
  {
    var slot := slots[caller.chans[k]];
    slot.owner == c && slot.charge == caller.charges[k] && (slot.phase.Allocated? <==> caller.enrolled <= k)
  }

  ghost predicate Booked(callers: seq<Caller>, slots: seq<Slot>) {
    && (forall c :: 0 <= c < |callers| ==>
          callers[c].enrolled <= |callers[c].chans| <= |callers[c].charges| && callers[c].charges != [])
    && (forall c, i :: 0 <= c < |callers| && 0 <= i < |callers[c].charges| ==> callers[c].charges[i] >= 1)
    && (forall c, k :: 0 <= c < |callers| && 0 <= k < |callers[c].chans| ==>
          callers[c].chans[k] < |slots| && Kept(callers[c], c, k, slots))
    && (forall c, j, k :: 0 <= c < |callers| && 0 <= j < k < |callers[c].chans| ==>
          callers[c].chans[j] < callers[c].chans[k])
  }

  /** Only a caller that has registered everything hands a frame over, and it commits after the write. */
  predicate Paced(caller: Caller) {
    && (!caller.wire.Unsent? ==>
          caller.enrolled == |caller.charges| && (caller.hold.Held? || caller.hold.Spent? || caller.hold.Refunded?))
    && (caller.wire.Queued? ==> !caller.hold.Spent?)
  }

  ghost predicate AllPaced(callers: seq<Caller>) {
    forall c :: 0 <= c < |callers| ==> Paced(callers[c])
  }

  /** The ring is the last at most 512 of the departed ids. */
  predicate Newest(ring: seq<nat>, log: seq<nat>) {
    |ring| == Min(|log|, ABANDONED_ID_MEMORY) && ring == log[|log| - |ring|..]
  }

  ghost predicate Counted(s: State) {
    var t := s.core.tally;
    t.ok + t.err + t.late + t.stray == s.routed
  }

  ghost predicate Inv(s: State) {
    && Shape(s)
    && Hooked(s.core.waiters, s.slots)
    && NoGhosts(s)
    && Mail(s.slots)
    && Tiled(s.slots, Tops(s))
    && Booked(s.callers, s.slots)
    && Newest(s.core.abandoned, s.departed)
    && Counted(s)
    && AllPaced(s.callers)
  }

  lemma InitialInv()
    ensures Inv(INITIAL)
  {
    NothingYet(INITIAL.core.waiters, INITIAL.slots, Tops(INITIAL), INITIAL.callers);
  }

  lemma NothingYet(waiters: map<nat, nat>, slots: seq<Slot>, tops: seq<nat>, callers: seq<Caller>)
    requires waiters == map[] && slots == [] && tops == [0] && callers == []
    ensures Hooked(waiters, slots) && Mail(slots) && Tiled(slots, tops) && Booked(callers, slots) && AllPaced(callers)
  {
  }

  // ---- One step keeps each part of the invariant.

  /** Steps outside the table leave the map and the channels alone. */
  lemma TableOnly(s: State, e: Event)
    requires Shape(s) && Enabled(s, e) && !OfTable(e)
    ensures var t := Apply(s, e); t.slots == s.slots && t.core.waiters == s.core.waiters
  {
    if OfCaller(e) { TableOnlyOwn(s, e); }
  }

  lemma TableOnlyOwn(s: State, e: Event)
    requires Shape(s) && Enabled(s, e) && OfCaller(e)
    ensures var t := ApplyCaller(s, e); t.slots == s.slots && t.core.waiters == s.core.waiters
  {
  }

  lemma UnhookedOne(waiters: map<nat, nat>, slots: seq<Slot>, id: nat, phase: Phase)
    requires Hooked(waiters, slots) && id in waiters && !phase.Waiting?
    ensures Hooked(waiters - {id}, slots[waiters[id] := slots[waiters[id]].(phase := phase)])
  {
    var a := waiters[id];
    forall b | 0 <= b < |slots| && b != a && slots[b].phase.Waiting?
      ensures slots[b].id in waiters - {id}
    {
      assert waiters[slots[b].id] == b;
    }
  }

  lemma HookedOne(waiters: map<nat, nat>, slots: seq<Slot>, a: nat)
    requires Hooked(waiters, slots) && a < |slots| && slots[a].id !in waiters
    ensures Hooked(waiters[slots[a].id := a], slots[a := slots[a].(phase := Waiting)])
  {
  }

  lemma HookedRegister(s: State, c: nat)
    requires Shape(s) && Enabled(s, Register(c)) && Hooked(s.core.waiters, s.slots)
    requires Booked(s.callers, s.slots)
    ensures Hooked(ApplyRegister(s, c).core.waiters, ApplyRegister(s, c).slots)
  {
    var a := s.callers[c].chans[s.callers[c].enrolled];
    var id := s.slots[a].id;
    assert Kept(s.callers[c], c, s.callers[c].enrolled, s.slots);
    if !s.core.disconnected {
      if id in s.core.waiters {
        UnhookedOne(s.core.waiters, s.slots, id, Gone(Overwritten));
        var cleared := s.slots[s.core.waiters[id] := s.slots[s.core.waiters[id]].(phase := Gone(Overwritten))];
        HookedOne(s.core.waiters - {id}, cleared, a);
        assert (s.core.waiters - {id})[id := a] == s.core.waiters[id := a];
      } else {
        HookedOne(s.core.waiters, s.slots, a);
      }
    }
  }

  lemma HookedRoute(s: State, f: Frame)
    requires Shape(s) && Enabled(s, RouteFrame(f)) && Hooked(s.core.waiters, s.slots)
    ensures Hooked(ApplyRoute(s, f).core.waiters, ApplyRoute(s, f).slots)
  {
    var Route(id, reply) := Classify(f);
    UnhookedOne(s.core.waiters, s.slots, id, Taken(reply, false));
  }

  lemma HookedUnhook(waiters: map<nat, nat>, slots: seq<Slot>, a: nat, own: Exit)
    requires Hooked(waiters, slots) && a < |slots|
    ensures Hooked(waiters - {slots[a].id}, Unhook(slots, waiters, a, own))
  {
    var id := slots[a].id;
    if id in waiters {
      UnhookedOne(waiters, slots, id, Gone(if waiters[id] == a then own else Evicted));
    } else {
      assert waiters - {id} == waiters;
    }
  }

  lemma HookedDropGuard(s: State, a: nat)
    requires Shape(s) && a < |s.slots| && Hooked(s.core.waiters, s.slots)
    ensures Hooked(ApplyDropGuard(s, a).core.waiters, ApplyDropGuard(s, a).slots)
  {
    HookedUnhook(s.core.waiters, s.slots, a, GuardDropped);
    assert ApplyDropGuard(s, a).core.waiters == s.core.waiters - {s.slots[a].id};
  }

  lemma HookedTable(s: State, e: Event)
    requires Shape(s) && Enabled(s, e) && OfTable(e)
    requires Hooked(s.core.waiters, s.slots) && Booked(s.callers, s.slots)
    ensures var t := ApplyTable(s, e); Hooked(t.core.waiters, t.slots)
  {
    if e.Register? {
      HookedRegister(s, e.c);
    } else if e.RouteFrame? {
      HookedRoute(s, e.f);
    } else if e.DropGuard? {
      HookedDropGuard(s, e.a);
    } else if e.RemoveWaiter? {
      HookedUnhook(s.core.waiters, s.slots, e.a, Removed);
    } else if e.Drain? || e.InstallDrain? {
      HookedSever(s.slots, if e.Drain? then e.e else Disconnected);
    } else {
      HookedElse(s, e);
    }
  }

  lemma HookedElse(s: State, e: Event)
    requires Shape(s) && Enabled(s, e) && (e.Number? || e.NoteDeparture? || e.Deliver?)
    requires Hooked(s.core.waiters, s.slots)
    ensures var t := ApplyTable(s, e); Hooked(t.core.waiters, t.slots)
  {
  }

  lemma HookedSever(slots: seq<Slot>, e: Failure)
    ensures Hooked(map[], DoomAll(slots, e))
  {
  }

  lemma HookedStep(s: State, e: Event)
    requires Shape(s) && Enabled(s, e)
    requires Hooked(s.core.waiters, s.slots) && Booked(s.callers, s.slots)
    ensures var t := Apply(s, e); Hooked(t.core.waiters, t.slots)
  {
    if OfTable(e) { HookedTable(s, e); } else { TableOnly(s, e); }
  }

  lemma NoGhostsStep(s: State, e: Event)
    requires Shape(s) && Enabled(s, e) && NoGhosts(s)
    ensures NoGhosts(Apply(s, e))
  {
    if OfTable(e) {
      NoGhostsTable(s, e);
    } else {
      TableOnly(s, e);
    }
  }

  lemma NoGhostsTable(s: State, e: Event)
    requires Shape(s) && Enabled(s, e) && OfTable(e) && NoGhosts(s)
    ensures NoGhosts(ApplyTable(s, e))
  {
  }

  lemma MailUnhook(waiters: map<nat, nat>, slots: seq<Slot>, a: nat, own: Exit)
    requires Hooked(waiters, slots) && Mail(slots) && a < |slots| && own !in {Routed, Drained}
    ensures Mail(Unhook(slots, waiters, a, own)) && !Unhook(slots, waiters, a, own)[a].phase.Waiting?
  {
  }

  lemma MailRegister(s: State, c: nat)
    requires Shape(s) && Enabled(s, Register(c)) && Mail(s.slots)
    requires Hooked(s.core.waiters, s.slots) && Booked(s.callers, s.slots)
    ensures Mail(ApplyRegister(s, c).slots)
  {
    assert Kept(s.callers[c], c, s.callers[c].enrolled, s.slots);
  }

  lemma MailRoute(s: State, f: Frame)
    requires Shape(s) && Enabled(s, RouteFrame(f)) && Mail(s.slots) && Hooked(s.core.waiters, s.slots)
    ensures Mail(ApplyRoute(s, f).slots)
  {
  }

  lemma MailDropGuard(s: State, a: nat)
    requires Shape(s) && Enabled(s, DropGuard(a)) && Mail(s.slots) && Hooked(s.core.waiters, s.slots)
    ensures Mail(ApplyDropGuard(s, a).slots)
  {
    MailUnhook(s.core.waiters, s.slots, a, GuardDropped);
  }

  lemma MailTable(s: State, e: Event)
    requires Shape(s) && Enabled(s, e) && OfTable(e) && Mail(s.slots)
    requires Hooked(s.core.waiters, s.slots) && Booked(s.callers, s.slots)
    ensures Mail(ApplyTable(s, e).slots)
  {
    if e.Register? {
      MailRegister(s, e.c);
    } else if e.RouteFrame? {
      MailRoute(s, e.f);
    } else if e.DropGuard? {
      MailDropGuard(s, e.a);
    } else if e.RemoveWaiter? {
      MailUnhook(s.core.waiters, s.slots, e.a, Removed);
    } else if e.Drain? || e.InstallDrain? {
      MailSever(s.slots, if e.Drain? then e.e else Disconnected);
    } else if e.Deliver? {
      MailDeliver(s, e.a);
    }
  }

  lemma MailSever(slots: seq<Slot>, e: Failure)
    requires Mail(slots)
    ensures Mail(DoomAll(slots, e))
  {
  }

  lemma MailDeliver(s: State, a: nat)
    requires Shape(s) && Enabled(s, Deliver(a)) && Mail(s.slots)
    ensures Mail(ApplyDeliver(s, a).slots)
  {
    assert Posted(s.slots[a]);
  }

  lemma MailStep(s: State, e: Event)
    requires Shape(s) && Enabled(s, e) && Mail(s.slots)
    requires Hooked(s.core.waiters, s.slots) && Booked(s.callers, s.slots)
    ensures Mail(Apply(s, e).slots)
  {
    if OfTable(e) { MailTable(s, e); } else { TableOnly(s, e); }
  }

  predicate SameRange(x: Slot, y: Slot) {
    x.epoch == y.epoch && x.id == y.id && x.charge == y.charge && x.owner == y.owner
  }

  /** No step moves, drops or relabels an allocated range. */
  lemma RangesStay(s: State, e: Event)
    requires Shape(s) && Enabled(s, e)
    ensures var t := Apply(s, e);
            && |s.slots| <= |t.slots| && (!e.Number? ==> |t.slots| == |s.slots|)
            && forall a :: 0 <= a < |s.slots| ==> SameRange(s.slots[a], t.slots[a])
  {
    if OfTable(e) { RangesStayTable(s, e); } else { TableOnly(s, e); }
  }

  lemma RangesStayTable(s: State, e: Event)
    requires Shape(s) && Enabled(s, e) && OfTable(e)
    ensures var t := ApplyTable(s, e);
            && |s.slots| <= |t.slots| && (!e.Number? ==> |t.slots| == |s.slots|)
            && forall a :: 0 <= a < |s.slots| ==> SameRange(s.slots[a], t.slots[a])
  {
  }

  lemma FoundGrows(slots: seq<Slot>, more: seq<Slot>, epoch: nat, i: nat)
    requires Found(slots, epoch, i) && |slots| <= |more|
    requires forall a :: 0 <= a < |slots| ==> SameRange(slots[a], more[a])
    ensures Found(more, epoch, i)
  {
    var a :| 0 <= a < |slots| && Covers(slots[a], epoch, i);
    assert SameRange(slots[a], more[a]) && Covers(more[a], epoch, i);
  }

  /** Relabelling phases leaves the tiling alone, and a new generation starts empty. */
  lemma TiledFrame(slots: seq<Slot>, tops: seq<nat>, more: seq<Slot>, tops': seq<nat>)
    requires Tiled(slots, tops) && |more| == |slots|
    requires forall a :: 0 <= a < |slots| ==> SameRange(slots[a], more[a])
    requires tops' == tops || tops' == tops + [0]
    ensures Tiled(more, tops')
  {
    forall a | 0 <= a < |more|
      ensures more[a].epoch < |tops'| && more[a].charge >= 1 && more[a].id + more[a].charge <= tops'[more[a].epoch]
    {
      assert SameRange(slots[a], more[a]);
    }
    forall a, b | 0 <= a < b < |more| && more[a].epoch == more[b].epoch
      ensures more[a].id + more[a].charge <= more[b].id
    {
      assert SameRange(slots[a], more[a]) && SameRange(slots[b], more[b]);
    }
    forall epoch, i | 0 <= epoch < |tops'| && 0 <= i < tops'[epoch]
      ensures Found(more, epoch, i)
    {
      assert epoch < |tops| && tops[epoch] == tops'[epoch];
      FoundGrows(slots, more, epoch, i);
    }
  }

  lemma TiledAppend(slots: seq<Slot>, past: seq<nat>, next: nat, newest: Slot)
    requires Tiled(slots, past + [next])
    requires newest.epoch == |past| && newest.id == next && newest.charge >= 1
    ensures Tiled(slots + [newest], past + [next + newest.charge])
  {
    var more := slots + [newest];
    var tops := past + [next];
    var tops' := past + [next + newest.charge];
    assert forall a :: 0 <= a < |slots| ==> SameRange(slots[a], more[a]);
    forall epoch, i | 0 <= epoch < |tops'| && 0 <= i < tops'[epoch]
      ensures Found(more, epoch, i)
    {
      if epoch == |past| && i >= next {
        assert Covers(more[|slots|], epoch, i);
      } else {
        assert i < tops[epoch];
        FoundGrows(slots, more, epoch, i);
      }
    }
    forall a | 0 <= a < |more| ensures more[a].id + more[a].charge <= tops'[more[a].epoch] {
      assert a < |slots| ==> slots[a].id + slots[a].charge <= tops[slots[a].epoch];
    }
  }

  lemma TopsStep(s: State, e: Event)
    requires Shape(s) && Enabled(s, e) && !e.Number?
    ensures var t := Apply(s, e); Tops(t) == Tops(s) || Tops(t) == Tops(s) + [0]
  {
    if OfCaller(e) { TopsOwn(s, e); }
  }

  lemma TopsOwn(s: State, e: Event)
    requires Shape(s) && Enabled(s, e) && OfCaller(e)
    ensures var t := ApplyCaller(s, e); t.core.next == s.core.next && t.pastTops == s.pastTops
  {
  }

  lemma TiledStep(s: State, e: Event)
    requires Shape(s) && Enabled(s, e)
    requires Tiled(s.slots, Tops(s)) && Booked(s.callers, s.slots)
    ensures Tiled(Apply(s, e).slots, Tops(Apply(s, e)))
  {
    RangesStay(s, e);
    if e.Number? {
      TiledAppend(s.slots, s.pastTops, s.core.next, Apply(s, e).slots[|s.slots|]);
    } else {
      TopsStep(s, e);
      TiledFrame(s.slots, Tops(s), Apply(s, e).slots, Tops(Apply(s, e)));
    }
  }

  /** What a change of phases and reservations may not touch. */
  lemma BookedFrame(callers: seq<Caller>, slots: seq<Slot>, callers': seq<Caller>, slots': seq<Slot>)
    requires Booked(callers, slots) && |callers| == |callers'| && |slots| <= |slots'|
    requires forall c :: 0 <= c < |callers| ==> SameBooking(callers[c], callers'[c])
    requires forall a :: 0 <= a < |slots| ==>
      slots'[a].owner == slots[a].owner && slots'[a].charge == slots[a].charge
      && (slots'[a].phase.Allocated? <==> slots[a].phase.Allocated?)
    ensures Booked(callers', slots')
  {
    forall c, k | 0 <= c < |callers'| && 0 <= k < |callers'[c].chans|
      ensures callers'[c].chans[k] < |slots'| && Kept(callers'[c], c, k, slots')
    {
      assert SameBooking(callers[c], callers'[c]) && Kept(callers[c], c, k, slots);
    }
    forall c | 0 <= c < |callers'|
      ensures callers'[c].enrolled <= |callers'[c].chans| <= |callers'[c].charges| && callers'[c].charges != []
      ensures forall i :: 0 <= i < |callers'[c].charges| ==> callers'[c].charges[i] >= 1
      ensures forall j, k :: 0 <= j < k < |callers'[c].chans| ==> callers'[c].chans[j] < callers'[c].chans[k]
    {
      assert SameBooking(callers[c], callers'[c]);
    }
  }

  lemma BookedNumber(s: State, c: nat)
    requires Shape(s) && Enabled(s, Number(c)) && Booked(s.callers, s.slots)
    ensures Booked(ApplyNumber(s, c).callers, ApplyNumber(s, c).slots)
  {
    var s' := ApplyNumber(s, c);
    forall d, k | 0 <= d < |s'.callers| && 0 <= k < |s'.callers[d].chans|
      ensures s'.callers[d].chans[k] < |s'.slots| && Kept(s'.callers[d], d, k, s'.slots)
    {
      if k < |s.callers[d].chans| {
        assert Kept(s.callers[d], d, k, s.slots);
      }
    }
  }

  /** Channel `a` is registered now; no other channel's registration changed. */
  ghost predicate MarkedOne(slots: seq<Slot>, slots': seq<Slot>, a: nat) {
    && a < |slots| == |slots'| && !slots'[a].phase.Allocated?
    && forall b :: 0 <= b < |slots| ==>
         && slots'[b].owner == slots[b].owner && slots'[b].charge == slots[b].charge
         && (b != a ==> (slots'[b].phase.Allocated? <==> slots[b].phase.Allocated?))
  }

  lemma RegisterMarksOne(s: State, c: nat)
    requires Shape(s) && Enabled(s, Register(c)) && !s.core.disconnected
    requires Hooked(s.core.waiters, s.slots) && Kept(s.callers[c], c, s.callers[c].enrolled, s.slots)
    ensures MarkedOne(s.slots, ApplyRegister(s, c).slots, s.callers[c].chans[s.callers[c].enrolled])
  {
  }

  lemma BookedOneMore(callers: seq<Caller>, slots: seq<Slot>, c: nat, slots': seq<Slot>)
    requires Booked(callers, slots) && c < |callers| && callers[c].enrolled < |callers[c].chans|
    requires MarkedOne(slots, slots', callers[c].chans[callers[c].enrolled])
    ensures Booked(callers[c := callers[c].(enrolled := callers[c].enrolled + 1)], slots')
  {
    var callers' := callers[c := callers[c].(enrolled := callers[c].enrolled + 1)];
    var a := callers[c].chans[callers[c].enrolled];
    assert Kept(callers[c], c, callers[c].enrolled, slots);
    forall d, k | 0 <= d < |callers'| && 0 <= k < |callers'[d].chans|
      ensures callers'[d].chans[k] < |slots'| && Kept(callers'[d], d, k, slots')
    {
      assert Kept(callers[d], d, k, slots);
      if callers[d].chans[k] == a {
        assert d == c && k == callers[c].enrolled;
      }
    }
  }

  lemma BookedOver(callers: seq<Caller>, slots: seq<Slot>, c: nat)
    requires Booked(callers, slots) && c < |callers|
    ensures Booked(callers[c := callers[c].(live := false)], slots)
  {
    BookedFrame(callers, slots, callers[c := callers[c].(live := false)], slots);
  }

  /** What registration does to the caller. */
  lemma RegisterShape(s: State, c: nat)
    requires Shape(s) && Enabled(s, Register(c))
    ensures var t := ApplyRegister(s, c);
            if s.core.disconnected then
              t.slots == s.slots && t.callers == s.callers[c := s.callers[c].(live := false)]
            else
              t.callers == s.callers[c := s.callers[c].(enrolled := s.callers[c].enrolled + 1)]
  {
  }

  lemma BookedEither(
      callers: seq<Caller>, slots: seq<Slot>, c: nat, dead: bool, callers': seq<Caller>, slots': seq<Slot>)
    requires Booked(callers, slots) && c < |callers| && callers[c].enrolled < |callers[c].chans|
    requires dead ==> slots' == slots && callers' == callers[c := callers[c].(live := false)]
    requires !dead ==>
               && callers' == callers[c := callers[c].(enrolled := callers[c].enrolled + 1)]
               && MarkedOne(slots, slots', callers[c].chans[callers[c].enrolled])
    ensures Booked(callers', slots')
  {
    if dead {
      BookedOver(callers, slots, c);
    } else {
      BookedOneMore(callers, slots, c, slots');
    }
  }

  lemma BookedRegister(s: State, c: nat)
    requires Shape(s) && Enabled(s, Register(c))
    requires Hooked(s.core.waiters, s.slots) && Booked(s.callers, s.slots)
    ensures var t := ApplyRegister(s, c); Booked(t.callers, t.slots)
  {
    RegisterShape(s, c);
    if !s.core.disconnected {
      assert Kept(s.callers[c], c, s.callers[c].enrolled, s.slots);
      RegisterMarksOne(s, c);
    }
    var t := ApplyRegister(s, c);
    BookedEither(s.callers, s.slots, c, s.core.disconnected, t.callers, t.slots);
  }

  lemma BookedStart(s: State, charges: seq<nat>)
    requires Shape(s) && Enabled(s, Start(charges)) && Booked(s.callers, s.slots)
    ensures Booked(Apply(s, Start(charges)).callers, s.slots)
  {
    var s' := Apply(s, Start(charges));
    forall d, k | 0 <= d < |s'.callers| && 0 <= k < |s'.callers[d].chans|
      ensures s'.callers[d].chans[k] < |s.slots| && Kept(s'.callers[d], d, k, s.slots)
    {
      assert Kept(s.callers[d], d, k, s.slots);
    }
  }

  /** How an event other than a caller's own touches the callers. */
  lemma CallersShape(s: State, e: Event)
    requires Shape(s) && Enabled(s, e) && !OfCaller(e)
    ensures var t := Apply(s, e);
            && PoolIndex(s) <= PoolIndex(t)
            && (e.Start? ==> t.callers == s.callers + [Caller(e.charges, Fresh, [], 0, Unsent, true)])
            && (e.Number? || e.Register? ==>
                  t.callers == s.callers[e.c := t.callers[e.c]] && t.callers[e.c].hold == s.callers[e.c].hold)
            && (!e.Start? && !e.Number? && !e.Register? ==> t.callers == s.callers)
  {
  }

  predicate SameBooking(x: Caller, y: Caller) {
    x.charges == y.charges && x.chans == y.chans && x.enrolled == y.enrolled
  }

  lemma CallersStayOwn(s: State, e: Event)
    requires Shape(s) && Enabled(s, e) && OfCaller(e)
    ensures var t := ApplyCaller(s, e);
            && |t.callers| == |s.callers|
            && forall c :: 0 <= c < |s.callers| ==> SameBooking(s.callers[c], t.callers[c])
  {
  }

  lemma CallersStay(s: State, e: Event)
    requires Shape(s) && Enabled(s, e) && !e.Start? && !e.Number? && !e.Register?
    ensures var t := Apply(s, e);
            && |t.callers| == |s.callers|
            && forall c :: 0 <= c < |s.callers| ==> SameBooking(s.callers[c], t.callers[c])
  {
    if OfCaller(e) { CallersStayOwn(s, e); } else { CallersShape(s, e); }
  }

  lemma AllocatedStay(s: State, e: Event)
    requires Shape(s) && Enabled(s, e) && !e.Number? && !e.Register? && Hooked(s.core.waiters, s.slots)
    ensures var t := Apply(s, e);
            && |t.slots| == |s.slots|
            && forall a :: 0 <= a < |s.slots| ==> (t.slots[a].phase.Allocated? <==> s.slots[a].phase.Allocated?)
  {
    if !OfTable(e) { TableOnly(s, e); }
  }

  lemma BookedStep(s: State, e: Event)
    requires Shape(s) && Enabled(s, e)
    requires Hooked(s.core.waiters, s.slots) && Booked(s.callers, s.slots)
    ensures Booked(Apply(s, e).callers, Apply(s, e).slots)
  {
    if e.Start? {
      BookedStart(s, e.charges);
    } else if e.Number? {
      BookedNumber(s, e.c);
    } else if e.Register? {
      BookedRegister(s, e.c);
    } else {
      CallersStay(s, e);
      AllocatedStay(s, e);
      RangesStay(s, e);
      BookedFrame(s.callers, s.slots, Apply(s, e).callers, Apply(s, e).slots);
    }
  }

  lemma RingPush(ring: seq<nat>, log: seq<nat>, id: nat)
    requires Newest(ring, log)
    ensures Newest(Remember(ring, id), log + [id])
  {
  }

  lemma RingStep(s: State, e: Event)
    requires Shape(s) && Enabled(s, e) && Newest(s.core.abandoned, s.departed)
    ensures var t := Apply(s, e); Newest(t.core.abandoned, t.departed)
  {
    if e.NoteDeparture? {
      RingPush(s.core.abandoned, s.departed, s.slots[e.a].id);
      assert Apply(s, e) == ApplyNote(s, e.a);
    } else if e.ClearAbandoned? {
      assert Apply(s, e) == ApplyInstall(s, e);
    } else {
      RingUntouched(s, e);
    }
  }

  lemma RingUntouched(s: State, e: Event)
    requires Shape(s) && Enabled(s, e) && !e.NoteDeparture? && !e.ClearAbandoned?
    ensures var t := Apply(s, e); t.departed == s.departed && t.core.abandoned == s.core.abandoned
  {
    if OfTable(e) { RingTable(s, e); }
  }

  lemma RingTable(s: State, e: Event)
    requires Shape(s) && Enabled(s, e) && OfTable(e) && !e.NoteDeparture?
    ensures var t := ApplyTable(s, e); t.departed == s.departed && t.core.abandoned == s.core.abandoned
  {
  }

  lemma CountedStep(s: State, e: Event)
    requires Shape(s) && Enabled(s, e) && Counted(s)
    ensures Counted(Apply(s, e))
  {
    if OfTable(e) {
      CountedTable(s, e);
    } else if OfCaller(e) {
      CountedOwn(s, e);
    }
  }

  lemma CountedTable(s: State, e: Event)
    requires Shape(s) && Enabled(s, e) && OfTable(e) && Counted(s)
    ensures Counted(ApplyTable(s, e))
  {
  }

  lemma CountedOwn(s: State, e: Event)
    requires Shape(s) && Enabled(s, e) && OfCaller(e)
    ensures var t := ApplyCaller(s, e); t.core.tally == s.core.tally && t.routed == s.routed
  {
  }

  lemma PacedOwn(s: State, e: Event)
    requires Shape(s) && Enabled(s, e) && OfCaller(e) && Booked(s.callers, s.slots) && AllPaced(s.callers)
    ensures AllPaced(ApplyCaller(s, e).callers)
  {
    assert Paced(s.callers[e.c]);
  }

  lemma PacedTable(s: State, e: Event)
    requires Shape(s) && Enabled(s, e) && (e.Number? || e.Register?)
    requires Booked(s.callers, s.slots) && Paced(s.callers[e.c])
    ensures Paced(ApplyTable(s, e).callers[e.c])
  {
  }

  lemma PacedStep(s: State, e: Event)
    requires Shape(s) && Enabled(s, e) && Booked(s.callers, s.slots) && AllPaced(s.callers)
    ensures AllPaced(Apply(s, e).callers)
  {
    if OfCaller(e) {
      PacedOwn(s, e);
    } else {
      CallersShape(s, e);
      if e.Number? || e.Register? {
        assert Paced(s.callers[e.c]);
        PacedTable(s, e);
      }
    }
  }

  lemma InvStep(s: State, e: Event)
    requires Inv(s) && Enabled(s, e)
    ensures Inv(Apply(s, e))
  {
    HookedStep(s, e);
    NoGhostsStep(s, e);
    MailStep(s, e);
    TiledStep(s, e);
    BookedStep(s, e);
    RingStep(s, e);
    CountedStep(s, e);
    PacedStep(s, e);
  }

  lemma {:induction false} RunKeepsInv(s: State, events: seq<Event>)
    requires Inv(s) && Legal(s, events)
    ensures Inv(After(s, events))
    decreases |events|
  {
    if events != [] {
      InvStep(s, events[0]);
      RunKeepsInv(Apply(s, events[0]), events[1..]);
    }
  }

  /** Some interleaving leads to `s`. */
  ghost predicate Reachable(s: State) {
    exists events :: Legal(INITIAL, events) && After(INITIAL, events) == s
  }

  lemma ReachableInv(s: State)
    requires Reachable(s)
    ensures Inv(s)
  {
    var events :| Legal(INITIAL, events) && After(INITIAL, events) == s;
    InitialInv();
    RunKeepsInv(INITIAL, events);
  }
}
