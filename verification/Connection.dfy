/**
The connection's shared state as the object the source keeps it in. Every method is one lock
section or one loop of src/client/connection.rs, proved against the step it performs on the
protocol's `Core` and on the `Clocks`.
*/
module Connection {
  import opened Bytes
  import opened ConnectionState
  import opened Credits
  import Liveness

  /** One registered request: the channel its caller listens on, and its clocks. */
  datatype Waiter = Waiter(chan: nat, registeredAt: nat, sentAt: Option<nat>, lastActivity: nat, asyncId: Option<nat>)

  function Channels(waiters: map<nat, Waiter>): map<nat, nat> {
    map id | id in waiters :: waiters[id].chan
  }

  function WaiterClock(w: Waiter): Liveness.Clock {
    Liveness.Clock(w.registeredAt, w.sentAt, w.lastActivity)
  }

  function ClockMap(waiters: map<nat, Waiter>): map<nat, Liveness.Clock> {
    map id | id in waiters :: WaiterClock(waiters[id])
  }

  // ---- Routing one batch of sub-frames.

  /** A reply the receiver task handed to a channel. */
  datatype Delivery = Delivery(chan: nat, reply: Reply)

  /** The state after routing `frames`, when the channels in `gone` have no receiver left. */
  function RouteAll(core: Core, frames: seq<Frame>, gone: set<nat>): Core {
    if frames == [] then core
    else
      var before := RouteAll(core, frames[..|frames| - 1], gone);
      RouteOne(before, frames[|frames| - 1], gone)
  }

  function RouteOne(core: Core, f: Frame, gone: set<nat>): Core {
    match Classify(f)
    case Skip => core
    case Route(id, reply) =>
      if id in core.waiters && core.waiters[id] in gone then Rebalance(Dispatch(core, id, reply), reply)
      else Dispatch(core, id, reply)
  }

  function Routable(frames: seq<Frame>): nat {
    if frames == [] then 0
    else Routable(frames[..|frames| - 1]) + (if Classify(frames[|frames| - 1]).Route? then 1 else 0)
  }

  function Count(t: Tally): int {
    t.ok + t.err + t.late + t.stray
  }

  /** However many waiters, strays and departed callers a batch meets, each routed sub-frame is counted once. */
  lemma {:induction false} BatchIsCountedOnce(core: Core, frames: seq<Frame>, gone: set<nat>)
    ensures Count(RouteAll(core, frames, gone).tally) == Count(core.tally) + Routable(frames)
  {
    if frames != [] {
      BatchIsCountedOnce(core, frames[..|frames| - 1], gone);
    }
  }

  predicate Names(frames: seq<Frame>, id: nat) {
    exists i :: 0 <= i < |frames| && Classify(frames[i]).Route? && frames[i].messageId == id
  }

  /** Routing takes away exactly the waiters some frame named, and leaves the others as they were. */
  lemma {:induction false} BatchTakesOnlyItsOwn(core: Core, frames: seq<Frame>, gone: set<nat>, id: nat)
    ensures id in RouteAll(core, frames, gone).waiters <==> id in core.waiters && !Names(frames, id)
    ensures id in RouteAll(core, frames, gone).waiters ==> RouteAll(core, frames, gone).waiters[id] == core.waiters[id]
  {
    if frames != [] {
      var n := |frames| - 1;
      var init, last := frames[..n], frames[n];
      BatchTakesOnlyItsOwn(core, init, gone, id);
      assert forall i :: 0 <= i < n ==> init[i] == frames[i];
      assert Names(frames, id) <==> Names(init, id) || (Classify(last).Route? && last.messageId == id);
    }
  }

  function DeliverOne(core: Core, f: Frame, gone: set<nat>): seq<Delivery> {
    match Classify(f)
    case Skip => []
    case Route(id, reply) =>
      if id in core.waiters && core.waiters[id] !in gone then [Delivery(core.waiters[id], reply)] else []
  }

  /** What routing `frames` hands out, in order. */
  function Deliveries(core: Core, frames: seq<Frame>, gone: set<nat>): seq<Delivery> {
    if frames == [] then []
    else
      var init, last := frames[..|frames| - 1], frames[|frames| - 1];
      Deliveries(core, init, gone) + DeliverOne(RouteAll(core, init, gone), last, gone)
  }

  /** The channel was registered under the id of a frame in the batch that carried this very reply. */
  ghost predicate Answers(core: Core, frames: seq<Frame>, d: Delivery) {
    exists i :: 0 <= i < |frames| && Classify(frames[i]) == Route(frames[i].messageId, d.reply)
                && frames[i].messageId in core.waiters && core.waiters[frames[i].messageId] == d.chan
  }

  predicate OneIdEach(waiters: map<nat, nat>) {
    forall i, j :: i in waiters && j in waiters && waiters[i] == waiters[j] ==> i == j
  }

  /** Every delivery answers a frame naming its own channel's id. */
  lemma {:induction false} DeliveriesAreAnswers(core: Core, frames: seq<Frame>, gone: set<nat>, d: Delivery)
    requires d in Deliveries(core, frames, gone)
    ensures Answers(core, frames, d) && d.chan !in gone
  {
    var n := |frames| - 1;
    var init, last := frames[..n], frames[n];
    if d in Deliveries(core, init, gone) {
      DeliveriesAreAnswers(core, init, gone, d);
      var i :| 0 <= i < |init| && Classify(init[i]) == Route(init[i].messageId, d.reply)
               && init[i].messageId in core.waiters && core.waiters[init[i].messageId] == d.chan;
      assert init[i] == frames[i];
    } else {
      BatchTakesOnlyItsOwn(core, init, gone, last.messageId);
      assert Classify(frames[n]) == Route(frames[n].messageId, d.reply);
    }
  }

  /** The first routable frame that names `id`. */
  ghost predicate FirstNaming(frames: seq<Frame>, id: nat, i: nat) {
    && i < |frames| && Classify(frames[i]).Route? && frames[i].messageId == id
    && forall j :: 0 <= j < i ==> !(Classify(frames[j]).Route? && frames[j].messageId == id)
  }

  /** A waiter that is still listening is handed the reply of the first frame that names it. */
  lemma {:induction false} FirstFrameIsDelivered(core: Core, frames: seq<Frame>, gone: set<nat>, id: nat, i: nat)
    requires id in core.waiters && core.waiters[id] !in gone && FirstNaming(frames, id, i)
    ensures Delivery(core.waiters[id], Classify(frames[i]).reply) in Deliveries(core, frames, gone)
  {
    var n := |frames| - 1;
    var init, last := frames[..n], frames[n];
    if i < n {
      FirstFrameIsDelivered(core, init, gone, id, i);
    } else {
      BatchTakesOnlyItsOwn(core, init, gone, id);
      assert !Names(init, id);
    }
  }

  /** No channel is written twice in one batch, however often the server repeats an id. */
  lemma {:induction false} NoChannelIsWrittenTwice(core: Core, frames: seq<Frame>, gone: set<nat>, i: nat, j: nat)
    requires OneIdEach(core.waiters) && i < j < |Deliveries(core, frames, gone)|
    ensures Deliveries(core, frames, gone)[i].chan != Deliveries(core, frames, gone)[j].chan
  {
    var n := |frames| - 1;
    var init, last := frames[..n], frames[n];
    var before := Deliveries(core, init, gone);
    if j < |before| {
      NoChannelIsWrittenTwice(core, init, gone, i, j);
    } else {
      DeliveriesAreAnswers(core, init, gone, before[i]);
      var k :| 0 <= k < |init| && Classify(init[k]) == Route(init[k].messageId, before[i].reply)
               && init[k].messageId in core.waiters && core.waiters[init[k].messageId] == before[i].chan;
      BatchTakesOnlyItsOwn(core, init, gone, last.messageId);
      assert Names(init, init[k].messageId);
    }
  }

  // ---- One sub-frame, from bytes to a decision.

  datatype Header = Header(messageId: nat, credits: nat, status: Status, asyncId: Option<nat>, signed: bool)

  /**
  A sub-frame as it arrives. `oplockTree` is the tree of the handle an oplock break names, if it is
  one of ours; `signatureHolds` is what verifying the signature would say.
  */
  datatype SubFrame =
    | Corrupt
    | Parsed(header: Header, body: seq<byte>, oplockTree: Option<nat>, signatureHolds: bool, socket: nat)

  datatype Signing = Signing(shouldSign: bool, hasKey: bool, wasEncrypted: bool)

  datatype Prepared = Fatal | AckOplockBreak(tree: nat) | Acted(action: Action)

  /** Only a signed, unencrypted frame on a signing session with a key can fail verification. */
  predicate Accepted(sub: SubFrame, signing: Signing)
    requires sub.Parsed?
  {
    sub.signatureHolds || !sub.header.signed || !signing.shouldSign || !signing.hasKey || signing.wasEncrypted
  }

  /** The frame with its signature verdict. */
  function Judged(sub: SubFrame, signing: Signing): Frame
    requires sub.Parsed?
  {
    var h := sub.header;
    Frame(h.messageId, h.credits, h.status, h.asyncId, Accepted(sub, signing), sub.body, sub.socket)
  }

  predicate Interim(f: Frame) {
    f.messageId != UNSOLICITED && f.status.Pending?
  }

  class Inner {
    var waiters: map<nat, Waiter>
    var disconnected: bool
    var nextMessageId: nat
    var abandoned: seq<nat>
    const credits: CreditPool
    var routedOk: int
    var routedErr: int
    var lateAfterDrop: int
    var stray: int

    var lastFrameAt: Option<nat>
    var lastScheduledAt: nat
    var keepaliveAfter: Option<nat>
    var schedulingStalls: nat

    ghost function View(): Core
      reads this, credits, credits.current
    {
      Core(Channels(waiters), disconnected, nextMessageId, abandoned, credits.View(),
           Tally(routedOk, routedErr, lateAfterDrop, stray))
    }

    ghost function Clocks(): Liveness.Clocks
      reads this
    {
      Liveness.Clocks(ClockMap(waiters), lastFrameAt, lastScheduledAt, keepaliveAfter)
    }

    constructor (now: nat)
      ensures fresh(credits) && fresh(credits.current)
      ensures View() == FRESH_CORE
      ensures Clocks() == Liveness.Clocks(map[], None, now, Some(Liveness.KEEPALIVE_AFTER))
    {
      waiters, disconnected, nextMessageId, abandoned := map[], false, 0, [];
      credits := new CreditPool();
      routedOk, routedErr, lateAfterDrop, stray := 0, 0, 0, 0;
      lastFrameAt, lastScheduledAt, keepaliveAfter, schedulingStalls := None, now, Some(Liveness.KEEPALIVE_AFTER), 0;
    }

    method AllocateMsgId(charge: nat) returns (first: nat)
      modifies this`nextMessageId
      ensures first == old(nextMessageId) && View() == Allocate(old(View()), charge)
    {
      first := nextMessageId;
      nextMessageId := nextMessageId + charge;
    }

    method RegisterWaiter(id: nat, chan: nat, now: nat) returns (r: Result<nat, Failure>)
      modifies this`waiters
      ensures r == if old(disconnected) then Err(Disconnected) else Ok(id)
      ensures View() == Enrol(old(View()), id, chan)
      ensures r.Ok? ==> Liveness.Idle(Clocks(), id, now) == Some(0) && Clocks().waiters[id].sentAt.None?
    {
      if disconnected {
        return Err(Disconnected);
      }
      waiters := waiters[id := Waiter(chan, now, None, now, None)];
      return Ok(id);
    }

    /** A waiter guard going out of scope. */
    method DropGuard(id: nat)
      modifies this`waiters, this`abandoned
      ensures View() == Desert(old(View()), id)
    {
      if id in waiters {
        waiters := waiters - {id};
        if |abandoned| >= ABANDONED_ID_MEMORY {
          abandoned := abandoned[1..];
        }
        abandoned := abandoned + [id];
      }
    }

    method RemoveWaiter(id: nat)
      modifies this`waiters
      ensures View() == Forget(old(View()), id)
    {
      waiters := waiters - {id};
    }

    /**
    Bank the grant, notice an interim response, and decide what the frame is. Corrupt framing is
    noticed before anything is touched.
    */
    method PrepareSubFrame(sub: SubFrame, signing: Signing, now: nat) returns (r: Prepared)
      modifies this`waiters, credits.current
      ensures sub.Corrupt? ==> r.Fatal? && View() == old(View()) && waiters == old(waiters)
      // Nobody waits for an unsolicited or an interim frame.
      ensures sub.Parsed? && sub.header.messageId == UNSOLICITED ==>
        r == if sub.oplockTree.Some? then AckOplockBreak(sub.oplockTree.value) else Acted(Skip)
      ensures sub.Parsed? && sub.header.messageId != UNSOLICITED && sub.header.status.Pending? ==> r == Acted(Skip)
      // Any other goes to its own id: as a fault if and only if verification fails or the session expired.
      ensures sub.Parsed? && sub.header.messageId != UNSOLICITED && !sub.header.status.Pending? ==>
        && r.Acted? && r.action.Route? && r.action.messageId == sub.header.messageId
        && var reply := r.action.reply;
           var tampered := && sub.header.signed && signing.shouldSign && signing.hasKey
                           && !signing.wasEncrypted && !sub.signatureHolds;
           && (reply == Fault(BadSignature) <==> tampered)
           && (reply == Fault(Expired) <==> !tampered && sub.header.status.SessionExpired?)
           && (reply.Answer? <==> !tampered && !sub.header.status.SessionExpired?)
           && (reply.Answer? ==>
                 && reply.frame.messageId == sub.header.messageId && reply.frame.status == sub.header.status
                 && reply.frame.credits == sub.header.credits && reply.frame.body == sub.body && reply.frame.verified)
      ensures sub.Parsed? ==>
        && View() == Grant(old(View()), sub.header.credits)
        && waiters.Keys == old(waiters).Keys
        && var f := Judged(sub, signing);
           && (f.messageId != UNSOLICITED ==> r == Acted(Classify(f)))
           && (forall id :: id in waiters && !(id == f.messageId && Interim(f)) ==> waiters[id] == old(waiters)[id])
           && (f.messageId in waiters && Interim(f) ==>
                 && Liveness.Idle(Clocks(), f.messageId, now) == Some(0)
                 && waiters[f.messageId].asyncId
                    == if f.asyncId.Some? then f.asyncId else old(waiters)[f.messageId].asyncId)
    {
      if sub.Corrupt? {
        return Fatal;
      }
      var header := sub.header;
      credits.Grant(header.credits);
      if header.messageId == UNSOLICITED {
        return if sub.oplockTree.Some? then AckOplockBreak(sub.oplockTree.value) else Acted(Skip);
      }
      if header.status.Pending? {
        NoteInterim(header, now);
        return Acted(Skip);
      }
      if signing.shouldSign && !signing.wasEncrypted && header.signed {
        if signing.hasKey && !sub.signatureHolds {
          return Acted(Route(header.messageId, Fault(BadSignature)));
        }
      }
      if header.status.SessionExpired? {
        return Acted(Route(header.messageId, Fault(Expired)));
      }
      return Acted(Route(header.messageId, Answer(Judged(sub, signing))));
    }

    /** A sign of life: the request's deadline starts over, and the id a cancel would need is kept. */
    method NoteInterim(h: Header, now: nat)
      modifies this`waiters
      ensures waiters.Keys == old(waiters).Keys && Channels(waiters) == old(Channels(waiters))
      ensures forall id :: id in waiters ==>
        waiters[id] == if id != h.messageId then old(waiters)[id]
                       else old(waiters)[id].(
                         lastActivity := now,
                         asyncId := if h.asyncId.Some? then h.asyncId else old(waiters)[id].asyncId)
    {
      if h.messageId in waiters {
        var w := waiters[h.messageId].(lastActivity := now);
        waiters := waiters[h.messageId := if h.asyncId.Some? then w.(asyncId := h.asyncId) else w];
      }
    }

    method RouteFrame(f: Frame, gone: set<nat>) returns (sent: seq<Delivery>)
      modifies this`waiters, this`routedOk, this`routedErr, this`lateAfterDrop, this`stray
      ensures View() == RouteOne(old(View()), f, gone)
      ensures sent == DeliverOne(old(View()), f, gone)
      // What is handed out is counted as such; what is not is late if somebody left, else stray.
      ensures var routable := f.messageId != UNSOLICITED && !f.status.Pending?;
              var hit := f.messageId in old(waiters);
              var left := if hit then old(waiters)[f.messageId].chan in gone else f.messageId in old(abandoned);
              && (sent != [] <==> routable && hit && !left)
              && (sent != [] ==> |sent| == 1 && sent[0].chan == old(waiters)[f.messageId].chan)
              && routedOk == old(routedOk) + (if sent != [] && sent[0].reply.Answer? then 1 else 0)
              && routedErr == old(routedErr) + (if sent != [] && sent[0].reply.Fault? then 1 else 0)
              && lateAfterDrop == old(lateAfterDrop) + (if routable && left then 1 else 0)
              && stray == old(stray) + (if routable && !hit && !left then 1 else 0)
    {
      sent := [];
      var action := Classify(f);
      if action.Skip? {
        return;
      }
      var Route(id, reply) := action;
      if id in waiters {
        var chan := waiters[id].chan;
        waiters := waiters - {id};
        assert Channels(waiters) == old(Channels(waiters)) - {id};
        if reply.Fault? { routedErr := routedErr + 1; } else { routedOk := routedOk + 1; }
        if chan in gone {
          // The caller's receiver was dropped: move the count over.
          if reply.Fault? { routedErr := routedErr - 1; } else { routedOk := routedOk - 1; }
          lateAfterDrop := lateAfterDrop + 1;
        } else {
          sent := [Delivery(chan, reply)];
        }
      } else if id in abandoned {
        lateAfterDrop := lateAfterDrop + 1;
      } else {
        stray := stray + 1;
      }
    }

    /** The routing loop of the receiver task. */
    method RouteFrames(frames: seq<Frame>, gone: set<nat>) returns (sent: seq<Delivery>)
      modifies this`waiters, this`routedOk, this`routedErr, this`lateAfterDrop, this`stray
      ensures View() == RouteAll(old(View()), frames, gone)
      ensures sent == Deliveries(old(View()), frames, gone)
    {
      sent := [];
      for i := 0 to |frames|
        invariant View() == RouteAll(old(View()), frames[..i], gone)
        invariant sent == Deliveries(old(View()), frames[..i], gone)
      {
        assert frames[..i + 1][..i] == frames[..i];
        var more := RouteFrame(frames[i], gone);
        sent := sent + more;
      }
      assert frames[..|frames|] == frames;
    }

    /**
    Teardown: the map is emptied and the flag set in one go, the budget closed, and every waiter
    found is told once. `told` lists the ids in whatever order the map gave them up.
    */
    method FanErrorToWaiters(e: Failure) returns (told: seq<nat>, sent: seq<Delivery>)
      modifies this`waiters, this`disconnected, credits.current
      ensures View() == Close(Sever(old(View())))
      ensures multiset(told) == multiset(old(waiters).Keys) && |sent| == |told|
      ensures forall i :: 0 <= i < |told| ==>
        told[i] in old(waiters) && sent[i] == Delivery(old(waiters)[told[i]].chan, Fault(FanCopy(e)))
      // Silence is passed on as it is, everything else as a lost connection.
      ensures forall i :: 0 <= i < |sent| ==>
        sent[i].reply == Fault(match e case Unresponsive(silentFor) => Unresponsive(silentFor) case _ => Disconnected)
    {
      var drained := waiters;
      disconnected := true;
      waiters := map[];
      credits.Close();
      told, sent := [], [];
      var left := drained.Keys;
      while left != {}
        invariant left <= drained.Keys
        invariant multiset(told) + multiset(left) == multiset(drained.Keys) && |sent| == |told|
        invariant forall i :: 0 <= i < |told| ==>
          told[i] in drained && sent[i] == Delivery(drained[told[i]].chan, Fault(FanCopy(e)))
        decreases left
      {
        var id :| id in left;
        left := left - {id};
        told := told + [id];
        sent := sent + [Delivery(drained[id].chan, Fault(FanCopy(e)))];
      }
    }

    /** A fresh transport: everything scoped to the old session is gone, and the gate opens last. */
    method InstallTransport() returns (told: seq<nat>, sent: seq<Delivery>)
      modifies this, credits, credits.current
      ensures View() == FRESH_CORE.(tally := old(View()).tally)
      ensures Clocks() == old(Clocks()).(waiters := map[], lastFrameAt := None)
      ensures multiset(told) == multiset(old(waiters).Keys)
    {
      told, sent := FanErrorToWaiters(Disconnected);
      credits.Reset();
      nextMessageId := 0;
      lastFrameAt := None;
      abandoned := [];
      disconnected := false;
    }

    // ---- Clocks.

    method NoteServerSpoke(now: nat)
      modifies this`lastFrameAt
      ensures Clocks() == old(Clocks()).(lastFrameAt := Some(now))
      ensures keepaliveAfter.Some? && keepaliveAfter.value > 0 ==> Liveness.Proven(Clocks(), now)
    {
      lastFrameAt := Some(now);
    }

    /** The frame reached the wire: the deadline of each request in it starts over. */
    method MarkSent(ids: seq<nat>, now: nat)
      modifies this`waiters
      ensures View() == old(View())
      ensures waiters.Keys == old(waiters).Keys
      ensures forall id :: id in waiters ==>
        waiters[id] == if id in ids then old(waiters)[id].(sentAt := Some(now), lastActivity := now)
                       else old(waiters)[id]
    {
      for i := 0 to |ids|
        invariant waiters.Keys == old(waiters).Keys
        invariant forall id :: id in waiters ==>
          waiters[id] == if id in ids[..i] then old(waiters)[id].(sentAt := Some(now), lastActivity := now)
                         else old(waiters)[id]
      {
        if ids[i] in waiters {
          waiters := waiters[ids[i] := waiters[ids[i]].(sentAt := Some(now), lastActivity := now)];
        }
      }
      assert ids[..|ids|] == ids;
      assert Channels(waiters) == Channels(old(waiters));
    }

    method QuietFor(now: nat) returns (quiet: Option<nat>)
      ensures Liveness.Quiet(Clocks(), now, quiet)
    {
      var oldest: Option<nat> := None;
      ghost var seen: set<nat> := {};
      var left := waiters.Keys;
      ghost var clocks := Clocks();
      while left != {}
        invariant left !! seen && left + seen == waiters.Keys
        invariant oldest.None? ==> forall id :: id in seen ==> waiters[id].sentAt.None?
        invariant oldest.Some? ==>
          && (exists id :: id in seen && waiters[id].sentAt == oldest)
          && (forall id :: id in seen && waiters[id].sentAt.Some? ==> oldest.value <= waiters[id].sentAt.value)
        decreases left
      {
        var id :| id in left;
        left, seen := left - {id}, seen + {id};
        var sent := waiters[id].sentAt;
        if sent.Some? && (oldest.None? || sent.value < oldest.value) {
          oldest := sent;
        }
      }
      assert forall id :: id in waiters ==> clocks.waiters[id].sentAt == waiters[id].sentAt;
      if oldest.None? {
        return None;
      }
      assert Liveness.OldestSent(clocks, oldest.value) by {
        var id :| id in seen && waiters[id].sentAt == oldest;
        assert id in clocks.waiters && clocks.waiters[id].sentAt == Some(oldest.value);
      }
      var reference := if lastFrameAt.Some? && lastFrameAt.value > oldest.value then lastFrameAt.value
                       else oldest.value;
      quiet := Some(Liveness.Since(now, reference));
    }

    method ShiftWaiters(gap: nat)
      modifies this`waiters
      ensures waiters.Keys == old(waiters).Keys
      ensures forall id :: id in waiters ==> waiters[id] == Shifted(old(waiters)[id], gap)
      ensures Channels(waiters) == Channels(old(waiters))
      ensures ClockMap(waiters) == Liveness.ShiftAll(ClockMap(old(waiters)), gap)
    {
      ghost var before := waiters;
      var left := waiters.Keys;
      while left != {}
        invariant waiters.Keys == before.Keys && left <= before.Keys
        invariant forall id :: id in before ==>
          waiters[id] == if id in left then before[id] else Shifted(before[id], gap)
        decreases left
      {
        var id :| id in left;
        left := left - {id};
        waiters := waiters[id := Shifted(waiters[id], gap)];
      }
      assert Channels(waiters) == Channels(before);
    }

    /** Move every clock across a stretch nothing was scheduled. */
    method ForgiveSchedulingStall(now: nat) returns (stall: Option<nat>)
      modifies this`waiters, this`lastFrameAt, this`lastScheduledAt, this`schedulingStalls
      ensures Clocks() == Liveness.Forgive(old(Clocks()), now)
      ensures stall == Liveness.Stall(old(Clocks()), now)
      ensures View() == old(View())
      ensures schedulingStalls == old(schedulingStalls) + if stall.Some? then 1 else 0
    {
      var after := if keepaliveAfter.Some? then keepaliveAfter.value else Liveness.KEEPALIVE_AFTER;
      var gap := Liveness.Since(Liveness.Since(now, lastScheduledAt), Liveness.KeepaliveTick(after));
      lastScheduledAt := now;
      if gap < after {
        return None;
      }
      if lastFrameAt.Some? {
        lastFrameAt := Some(lastFrameAt.value + gap);
      }
      ShiftWaiters(gap);
      schedulingStalls := schedulingStalls + 1;
      return Some(gap);
    }
  }

  function Shifted(w: Waiter, d: nat): Waiter {
    w.(registeredAt := w.registeredAt + d, lastActivity := w.lastActivity + d,
       sentAt := match w.sentAt { case Some(t) => Some(t + d) case None => None })
  }
}
